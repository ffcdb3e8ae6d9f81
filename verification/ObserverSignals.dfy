/**
 Backpressure between C and one store observer. C delivers a result only when something has
 changed since the last delivery, the observer has signalled since then, and no callback of the
 observer is running (the contracts of a signalled live query and of a sequential callback);
 it coalesces changes, so a delivery carries the newest version.
 */
module ObserverSignals {
  import opened Wrappers
  import opened Runs

  /** Where C's thread stands in goStoreObserverCallback. */
  datatype Phase =
    | Idle             // no callback is running
    | Entered          // before the lookup of the context
    | Running          // the handler is running
    | SignalDue        // the handler has returned or panicked, and the callback will signal
    | Leaving          // signalled, about to return to C

  datatype State = State(
    autoSignal: bool,            // a plain handler; otherwise the handler has the signal function
    contextLive: bool,
    version: nat,                // of the query's result in the store
    delivered: Option<nat>,      // the version delivered last
    ready: bool,                 // C has a signal that it has not used
    phase: Phase,
    deliveries: nat,
    signals: nat)

  function Registered(autoSignal: bool): State { State(autoSignal, true, 0, None, true, Idle, 0, 0) }

  datatype Event =
    | Commit              // a transaction changes the query's result
    | Deliver             // C calls the callback
    | LookUp
    | HandlerReturns
    | HandlerPanics
    | Signal              // the callback itself signals
    | Leave
    | HandlerSignals      // the handler, or whoever it gave the signal function to, signals
    | Unregister

  predicate Stale(s: State) { s.delivered != Some(s.version) }

  function Next(s: State, e: Event): Option<State> {
    match e
    case Commit => Some(s.(version := s.version + 1))
    case Deliver =>
      if !(s.phase.Idle? && s.ready && Stale(s)) then None
      else Some(s.(phase := Entered, ready := false, delivered := Some(s.version), deliveries := s.deliveries + 1))
    case LookUp =>
      if !s.phase.Entered? then None
      else Some(s.(phase := if s.contextLive then Running else Idle))
    case HandlerReturns =>
      if !s.phase.Running? then None else Some(s.(phase := if s.autoSignal then SignalDue else Idle))
    case HandlerPanics => if !s.phase.Running? then None else Some(s.(phase := SignalDue))
    case Signal => if !s.phase.SignalDue? then None else Some(s.(phase := Leaving, ready := true, signals := s.signals + 1))
    case Leave => if !s.phase.Leaving? then None else Some(s.(phase := Idle))
    case HandlerSignals =>
      if s.autoSignal || s.deliveries == 0 then None else Some(s.(ready := true, signals := s.signals + 1))
    case Unregister => Some(s.(contextLive := false))
  }

  /** Something other than the store or the owner of the observer can move. */
  predicate CanProceed(s: State) {
    exists e | e in {Deliver, LookUp, HandlerReturns, HandlerPanics, Signal, Leave} :: Next(s, e).Some?
  }

  /** A delivery that has not been answered by a signal yet. */
  predicate Unanswered(p: Phase) { p.Entered? || p.Running? || p.SignalDue? }

  ghost predicate AutoInv(s: State) {
    && s.autoSignal
    && (s.contextLive ==>
          s.deliveries == s.signals + (if Unanswered(s.phase) then 1 else 0) && s.ready == !Unanswered(s.phase))
  }

  /**
   While its context lives, a plain observer owes C exactly one signal from the delivery to the
   signal of a callback, and none at any other time, whether its handler returns or panics.
   */
  lemma {:induction false} OneSignalForEachDelivery(events: seq<Event>)
    requires Run(Registered(true), Next, events).Some?
    requires Run(Registered(true), Next, events).value.contextLive
    ensures var s := Run(Registered(true), Next, events).value;
            && s.deliveries == s.signals + (if Unanswered(s.phase) then 1 else 0)
            && (s.phase.Idle? ==> s.deliveries == s.signals)
            && (s.ready <==> s.deliveries == s.signals)
  {
    forall s, e | AutoInv(s) && Next(s, e).Some? ensures AutoInv(Next(s, e).value) {}
    Invariance(Registered(true), Next, AutoInv, events);
  }

  /** It never wedges: when nothing more can happen without a new commit, the newest version has been delivered. */
  lemma {:induction false} QuietMeansCurrent(events: seq<Event>)
    requires Run(Registered(true), Next, events).Some?
    requires var s := Run(Registered(true), Next, events).value; s.contextLive && !CanProceed(s)
    ensures Run(Registered(true), Next, events).value.delivered == Some(Run(Registered(true), Next, events).value.version)
  {
    OneSignalForEachDelivery(events);
    var s := Run(Registered(true), Next, events).value;
    forall e | e in {Deliver, LookUp, HandlerReturns, HandlerPanics, Signal, Leave} ensures Next(s, e).None? {}
    assert Next(s, LookUp).None? && Next(s, HandlerReturns).None? && Next(s, Signal).None? && Next(s, Leave).None?;
    assert Next(s, Deliver).None?;
  }

  /** How many steps the callback that is running has left, and those of one more if the newest version is still to come. */
  function StepsLeft(s: State): nat {
    (match s.phase case Idle => 0 case Entered => 4 case Running => 3 case SignalDue => 2 case Leaving => 1)
    + if Stale(s) then 5 else 0
  }

  /** Without new commits every step brings a plain observer closer to rest, so it rests after at most nine. */
  lemma {:induction false} EachStepBringsRest(events: seq<Event>, e: Event)
    requires Run(Registered(true), Next, events).Some?
    requires var s := Run(Registered(true), Next, events).value;
             s.contextLive && !e.Commit? && !e.Unregister? && Next(s, e).Some?
    ensures var s := Run(Registered(true), Next, events).value;
            && Next(s, e).value.contextLive
            && StepsLeft(Next(s, e).value) < StepsLeft(s) <= 9
  {
    forall s, e | AutoInv(s) && Next(s, e).Some? ensures AutoInv(Next(s, e).value) {}
    Invariance(Registered(true), Next, AutoInv, events);
  }

  // ---------------------------------------------------------------- handlers that signal for themselves

  /** A handler with the signal function is owed no balance: one that signals and then panics has signalled twice. */
  lemma {:induction false} SignallingHandlerMaySignalTwice() returns (events: seq<Event>)
    ensures Run(Registered(false), Next, events).Some?
    ensures var s := Run(Registered(false), Next, events).value; s.contextLive && s.phase.Idle? && s.deliveries == 1 && s.signals == 2
  {
    var s0 := Registered(false);
    var s1 := Next(s0, Deliver).value;
    var s2 := Next(s1, LookUp).value;
    var s3 := Next(s2, HandlerSignals).value;
    var s4 := Next(s3, HandlerPanics).value;
    var s5 := Next(s4, Signal).value;
    Extend(s0, Next, [], s0, Deliver);
    Extend(s0, Next, [] + [Deliver], s1, LookUp);
    Extend(s0, Next, [] + [Deliver] + [LookUp], s2, HandlerSignals);
    Extend(s0, Next, [] + [Deliver] + [LookUp] + [HandlerSignals], s3, HandlerPanics);
    Extend(s0, Next, [] + [Deliver] + [LookUp] + [HandlerSignals] + [HandlerPanics], s4, Signal);
    Extend(s0, Next, [] + [Deliver] + [LookUp] + [HandlerSignals] + [HandlerPanics] + [Signal], s5, Leave);
    events := [] + [Deliver] + [LookUp] + [HandlerSignals] + [HandlerPanics] + [Signal] + [Leave];
  }

  ghost predicate Bounded(s: State) {
    s.deliveries <= s.signals + if s.ready then 0 else 1
  }

  /** For every kind of handler, C is at most one delivery ahead of the signals. */
  lemma {:induction false} NeverAheadOfSignals(autoSignal: bool, events: seq<Event>)
    requires Run(Registered(autoSignal), Next, events).Some?
    ensures var s := Run(Registered(autoSignal), Next, events).value;
            s.deliveries <= s.signals + 1 && (Next(s, Deliver).Some? ==> s.deliveries <= s.signals)
  {
    forall s, e | Bounded(s) && Next(s, e).Some? ensures Bounded(Next(s, e).value) {}
    Invariance(Registered(autoSignal), Next, Bounded, events);
  }
}
