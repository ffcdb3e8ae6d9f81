/**
 Authentication status: registering an observer and publishing a status share a lock, but a
 published status is handed to the observers after the lock is released, one goroutine each.

 An observer is named by the id its registration drew. Publishers, registrations, cancels and
 the started goroutines interleave in any way.
 */
module StatusBroadcast {
  import opened Wrappers
  import opened Runs

  /** Statuses are told apart by a number; INITIAL is the status of a new Authenticator. */
  type Status = nat

  const INITIAL: Status := 0

  /** A publisher past its critical section: the observers it has still to hand its status to. */
  datatype Publication = Publication(status: Status, remaining: seq<nat>)

  datatype State = State(
    observers: set<nat>,
    nextId: nat,
    current: Status,
    publications: seq<Publication>,
    started: multiset<(nat, Status)>,     // goroutines that have yet to call their observer
    delivered: multiset<(nat, Status)>)

  const FRESH := State({}, 0, INITIAL, [], multiset{}, multiset{})

  datatype Event =
    | Observe                                      // ObserveStatus
    | Publish(status: Status, order: seq<nat>)     // notifyStatusObservers up to the unlock; a map is read in any order
    | Dispatch(publication: nat)                   // one round of its second loop
    | Deliver(observer: nat, status: Status)       // a started goroutine calls its observer
    | Cancel(observer: nat)

  function Next(s: State, e: Event): Option<State> {
    match e
    case Observe =>
      Some(s.(observers := s.observers + {s.nextId}, nextId := s.nextId + 1, started := s.started + multiset{(s.nextId, s.current)}))
    case Publish(v, order) =>
      if multiset(order) != multiset(s.observers) then None
      else Some(s.(current := v, publications := s.publications + [Publication(v, order)]))
    case Dispatch(p) =>
      if p >= |s.publications| || s.publications[p].remaining == [] then None
      else
        var Publication(v, order) := s.publications[p];
        Some(s.(publications := s.publications[p := Publication(v, order[1..])], started := s.started + multiset{(order[0], v)}))
    case Deliver(o, v) =>
      if (o, v) !in s.started then None
      else Some(s.(started := s.started - multiset{(o, v)}, delivered := s.delivered + multiset{(o, v)}))
    case Cancel(o) => Some(s.(observers := s.observers - {o}))
  }

  // ---------------------------------------------------------------- what a history says

  /** How many registrations a history holds, which is also the id of the next one. */
  function Observes(h: seq<Event>): nat {
    if h == [] then 0 else Observes(h[..|h| - 1]) + if h[|h| - 1].Observe? then 1 else 0
  }

  /** The status current at the end of a history. */
  function Current(h: seq<Event>): Status {
    if h == [] then INITIAL
    else if h[|h| - 1].Publish? then h[|h| - 1].status
    else Current(h[..|h| - 1])
  }

  /** How often v was published in a stretch of history. */
  function Published(h: seq<Event>, v: Status): nat {
    if h == [] then 0
    else Published(h[..|h| - 1], v) + if h[|h| - 1].Publish? && h[|h| - 1].status == v then 1 else 0
  }

  /** Whether observer o is registered, and not cancelled since, at the end of a history. */
  function Subscribed(h: seq<Event>, o: nat): bool {
    if h == [] then false
    else
      var before, last := h[..|h| - 1], h[|h| - 1];
      if last.Observe? && Observes(before) == o then true
      else if last == Cancel(o) then false
      else Subscribed(before, o)
  }

  /** What o is owed of v because of one event after a history. */
  function NewlyOwed(h: seq<Event>, e: Event, o: nat, v: Status): nat {
    match e
    case Observe => if Observes(h) == o && Current(h) == v then 1 else 0
    case Publish(w, _) => if Subscribed(h, o) && w == v then 1 else 0
    case _ => 0
  }

  /** How often v has to reach observer o. */
  function Owed(h: seq<Event>, o: nat, v: Status): nat {
    if h == [] then 0
    else
      var before, last := h[..|h| - 1], h[|h| - 1];
      Owed(before, o, v) + NewlyOwed(before, last, o, v)
  }

  // ---------------------------------------------------------------- the books balance after every event

  function Remaining(ps: seq<Publication>, o: nat, v: Status): nat {
    if ps == [] then 0
    else Remaining(ps[..|ps| - 1], o, v) + if ps[|ps| - 1].status == v then multiset(ps[|ps| - 1].remaining)[o] else 0
  }

  lemma {:induction false} RemainingUpdated(ps: seq<Publication>, i: nat, p: Publication, o: nat, v: Status)
    requires i < |ps| && p.status == ps[i].status
    ensures var was, now := multiset(ps[i].remaining)[o], multiset(p.remaining)[o];
            Remaining(ps[i := p], o, v) + (if p.status == v then was else 0)
            == Remaining(ps, o, v) + (if p.status == v then now else 0)
  {
    var n := |ps| - 1;
    if i < n {
      assert ps[i := p][..n] == ps[..n][i := p];
      RemainingUpdated(ps[..n], i, p, o, v);
    } else {
      assert ps[i := p][..n] == ps[..n];
    }
  }

  ghost predicate Balanced(s: State, h: seq<Event>, o: nat, v: Status) {
    s.delivered[(o, v)] + s.started[(o, v)] + Remaining(s.publications, o, v) == Owed(h, o, v)
  }

  ghost predicate Follows(s: State, h: seq<Event>) {
    && s.nextId == Observes(h)
    && s.current == Current(h)
    && (forall o :: o in s.observers <==> Subscribed(h, o))
  }

  lemma {:induction false} FollowsOn(s: State, h: seq<Event>, e: Event)
    requires Follows(s, h) && Next(s, e).Some?
    ensures Follows(Next(s, e).value, h + [e])
  {
    var h' := h + [e];
    assert h'[..|h'| - 1] == h;
  }

  lemma {:induction false} OwedOneMore(h: seq<Event>, e: Event, o: nat, v: Status)
    ensures Owed(h + [e], o, v) == Owed(h, o, v) + NewlyOwed(h, e, o, v)
  {
    assert (h + [e])[..|h + [e]| - 1] == h;
  }

  lemma {:induction false} PublicationAdded(ps: seq<Publication>, p: Publication, o: nat, v: Status)
    ensures Remaining(ps + [p], o, v) == Remaining(ps, o, v) + if p.status == v then multiset(p.remaining)[o] else 0
  {
    assert (ps + [p])[..|ps + [p]| - 1] == ps;
  }

  lemma {:induction false} BalancedOn(s: State, h: seq<Event>, e: Event, o: nat, v: Status)
    requires Follows(s, h) && Balanced(s, h, o, v) && Next(s, e).Some?
    ensures Balanced(Next(s, e).value, h + [e], o, v)
  {
    OwedOneMore(h, e, o, v);
    match e
    case Publish(w, order) =>
      PublicationAdded(s.publications, Publication(w, order), o, v);
      assert multiset(order)[o] == if o in s.observers then 1 else 0;
    case Dispatch(p) =>
      var Publication(w, order) := s.publications[p];
      assert order == [order[0]] + order[1..];
      RemainingUpdated(s.publications, p, Publication(w, order[1..]), o, v);
    case _ =>
  }

  lemma {:induction false} BooksBalance(h: seq<Event>, o: nat, v: Status)
    requires Run(FRESH, Next, h).Some?
    ensures Follows(Run(FRESH, Next, h).value, h) && Balanced(Run(FRESH, Next, h).value, h, o, v)
  {
    if h != [] {
      var before, e := h[..|h| - 1], h[|h| - 1];
      BooksBalance(before, o, v);
      var s := Run(FRESH, Next, before).value;
      assert Run(FRESH, Next, h) == Next(s, e);
      FollowsOn(s, before, e);
      BalancedOn(s, before, e, o, v);
      assert h == before + [e];
    }
  }

  // ---------------------------------------------------------------- neither gap nor duplicate

  lemma {:induction false} ObservesGrow(a: seq<Event>, b: seq<Event>)
    ensures Observes(a) <= Observes(a + b)
  {
    if b == [] {
      assert a + b == a;
    } else {
      assert (a + b)[..|a + b| - 1] == a + b[..|b| - 1];
      ObservesGrow(a, b[..|b| - 1]);
    }
  }

  lemma {:induction false} NothingBeforeRegistration(h: seq<Event>, o: nat, v: Status)
    requires Observes(h) <= o
    ensures Owed(h, o, v) == 0 && !Subscribed(h, o)
  {
    if h != [] {
      NothingBeforeRegistration(h[..|h| - 1], o, v);
    }
  }

  /** While o stays registered it is owed everything that is published. */
  lemma {:induction false} OwedWhileSubscribed(start: seq<Event>, during: seq<Event>, o: nat, v: Status)
    requires o < Observes(start) && Subscribed(start, o) && Cancel(o) !in during
    ensures Subscribed(start + during, o)
    ensures Owed(start + during, o, v) == Owed(start, o, v) + Published(during, v)
  {
    if during == [] {
      assert start + during == start;
    } else {
      var d := during[..|during| - 1];
      assert (start + during)[..|start + during| - 1] == start + d;
      OwedWhileSubscribed(start, d, o, v);
      ObservesGrow(start, d);
    }
  }

  /** Once o is cancelled it is owed nothing more, because its id is never drawn again. */
  lemma {:induction false} NothingOwedAfterCancel(start: seq<Event>, after: seq<Event>, o: nat, v: Status)
    requires o < Observes(start) && !Subscribed(start, o)
    ensures !Subscribed(start + after, o) && Owed(start + after, o, v) == Owed(start, o, v)
  {
    if after == [] {
      assert start + after == start;
    } else {
      var d := after[..|after| - 1];
      assert (start + after)[..|start + after| - 1] == start + d;
      NothingOwedAfterCancel(start, d, o, v);
      ObservesGrow(start, d);
    }
  }

  lemma {:induction false} RegistrationOwes(before: seq<Event>, o: nat, v: Status)
    requires Observes(before) == o
    ensures var start := before + [Observe];
            Observes(start) == o + 1 && Subscribed(start, o) && Owed(start, o, v) == if Current(before) == v then 1 else 0
  {
    var start := before + [Observe];
    assert start[..|start| - 1] == before;
    NothingBeforeRegistration(before, o, v);
  }

  lemma {:induction false} CancelOwesNoMore(till: seq<Event>, after: seq<Event>, o: nat, v: Status)
    requires o < Observes(till) && after != [] && after[0] == Cancel(o)
    ensures Owed(till + after, o, v) == Owed(till, o, v)
  {
    var cancelled := till + [Cancel(o)];
    assert cancelled[..|cancelled| - 1] == till;
    NothingOwedAfterCancel(cancelled, after[1..], o, v);
    assert till + after == cancelled + after[1..];
  }

  /** What observer o, registered right after `before`, is owed by a whole history. */
  lemma {:induction false} OwedByInterval(before: seq<Event>, during: seq<Event>, after: seq<Event>, o: nat, v: Status)
    requires Observes(before) == o && Cancel(o) !in during && (after == [] || after[0] == Cancel(o))
    ensures Owed(before + [Observe] + during + after, o, v) == (if Current(before) == v then 1 else 0) + Published(during, v)
  {
    var start := before + [Observe];
    RegistrationOwes(before, o, v);
    OwedWhileSubscribed(start, during, o, v);
    ObservesGrow(start, during);
    if after == [] {
      assert start + during + after == start + during;
    } else {
      CancelOwesNoMore(start + during, after, o, v);
    }
  }

  /** All publishers have finished and all started goroutines have run. */
  predicate Drained(s: State) {
    s.started == multiset{} && forall p <- s.publications :: p.remaining == []
  }

  lemma {:induction false} NothingRemains(ps: seq<Publication>, o: nat, v: Status)
    requires forall p <- ps :: p.remaining == []
    ensures Remaining(ps, o, v) == 0
  {
    if ps != [] { NothingRemains(ps[..|ps| - 1], o, v); }
  }

  /**
   An observer registered after `before` and cancelled at the start of `after` (or never) gets,
   once everything has drained, the status current at its registration once and each status
   published in between as often as it was published, and nothing else.
   */
  lemma {:induction false} NoGapNoDuplicate(before: seq<Event>, during: seq<Event>, after: seq<Event>, o: nat, v: Status)
    requires Observes(before) == o && Cancel(o) !in during && (after == [] || after[0] == Cancel(o))
    requires Run(FRESH, Next, before + [Observe] + during + after).Some?
    requires Drained(Run(FRESH, Next, before + [Observe] + during + after).value)
    ensures Run(FRESH, Next, before + [Observe] + during + after).value.delivered[(o, v)]
         == (if Current(before) == v then 1 else 0) + Published(during, v)
  {
    var h := before + [Observe] + during + after;
    BooksBalance(h, o, v);
    OwedByInterval(before, during, after, o, v);
    NothingRemains(Run(FRESH, Next, h).value.publications, o, v);
  }

  /** Before everything has drained an observer may be short of statuses, but never has one too many. */
  lemma {:induction false} NeverTooMany(before: seq<Event>, during: seq<Event>, after: seq<Event>, o: nat, v: Status)
    requires Observes(before) == o && Cancel(o) !in during && (after == [] || after[0] == Cancel(o))
    requires Run(FRESH, Next, before + [Observe] + during + after).Some?
    ensures Run(FRESH, Next, before + [Observe] + during + after).value.delivered[(o, v)]
         <= (if Current(before) == v then 1 else 0) + Published(during, v)
  {
    BooksBalance(before + [Observe] + during + after, o, v);
    OwedByInterval(before, during, after, o, v);
  }

  /** A status published before a cancel may still reach the observer after it: here 7 does. */
  lemma {:induction false} DispatchCanOutliveCancel() returns (h: seq<Event>)
    ensures |h| >= 2 && h[|h| - 1] == Deliver(0, 7) && Cancel(0) in h[..|h| - 1]
    ensures Run(FRESH, Next, h).Some?
  {
    var s1 := Next(FRESH, Observe).value;
    var s2 := Next(s1, Publish(7, [0])).value;
    var s3 := Next(s2, Cancel(0)).value;
    var s4 := Next(s3, Dispatch(0)).value;
    Extend(FRESH, Next, [], FRESH, Observe);
    var h1 := [] + [Observe];
    Extend(FRESH, Next, h1, s1, Publish(7, [0]));
    var h2 := h1 + [Publish(7, [0])];
    Extend(FRESH, Next, h2, s2, Cancel(0));
    var h3 := h2 + [Cancel(0)];
    Extend(FRESH, Next, h3, s3, Dispatch(0));
    var h4 := h3 + [Dispatch(0)];
    Extend(FRESH, Next, h4, s4, Deliver(0, 7));
    h := h4 + [Deliver(0, 7)];
    assert h[..|h| - 1] == h4 && h4[2] == Cancel(0);
  }

  // ---------------------------------------------------------------- when a cancel is the end

  /** Nothing is on its way to observer o: no goroutine is about to call it, and no publisher is about to start one. */
  predicate NothingUnderWay(s: State, o: nat, v: Status) {
    s.started[(o, v)] == 0 && Remaining(s.publications, o, v) == 0
  }

  lemma {:induction false} DeliveredGrows(s: State, events: seq<Event>, o: nat, v: Status)
    requires Run(s, Next, events).Some?
    ensures Run(s, Next, events).value.delivered[(o, v)] >= s.delivered[(o, v)] + if Deliver(o, v) in events then 1 else 0
  {
    if events != [] {
      assert events == events[..|events| - 1] + [events[|events| - 1]];
      DeliveredGrows(s, events[..|events| - 1], o, v);
    }
  }

  lemma {:induction false} WaitingIsSomewhere(ps: seq<Publication>, o: nat, v: Status) returns (p: nat)
    requires Remaining(ps, o, v) > 0
    ensures p < |ps| && ps[p].status == v && o in ps[p].remaining
  {
    p := |ps| - 1;
    if ps[p].status != v || o !in ps[p].remaining {
      p := WaitingIsSomewhere(ps[..p], o, v);
    }
  }

  /** A started goroutine can call its observer, and a publisher can go on until it starts one for o. */
  lemma {:induction false} StillReaches(s: State, p: nat, o: nat) returns (events: seq<Event>)
    requires p < |s.publications| && o in s.publications[p].remaining
    ensures Run(s, Next, events).Some? && Deliver(o, s.publications[p].status) in events
    decreases |s.publications[p].remaining|
  {
    var Publication(v, order) := s.publications[p];
    var t := Next(s, Dispatch(p)).value;
    var rest;
    if order[0] == o {
      rest := [Deliver(o, v)];
      FirstThenRest(t, Next, Deliver(o, v), Next(t, Deliver(o, v)).value, []);
      assert rest == [Deliver(o, v)] + [];
    } else {
      rest := StillReaches(t, p, o);
    }
    FirstThenRest(s, Next, Dispatch(p), t, rest);
    events := [Dispatch(p)] + rest;
  }

  lemma {:induction false} WayReaches(s: State, o: nat, v: Status) returns (events: seq<Event>)
    requires !NothingUnderWay(s, o, v)
    ensures Run(s, Next, events).Some? && Deliver(o, v) in events
  {
    if s.started[(o, v)] > 0 {
      FirstThenRest(s, Next, Deliver(o, v), Next(s, Deliver(o, v)).value, []);
      events := [Deliver(o, v)];
      assert events == [Deliver(o, v)] + [];
    } else {
      var p := WaitingIsSomewhere(s.publications, o, v);
      events := StillReaches(s, p, o);
    }
  }

  /**
   After its cancel an observer is never called with v again, whatever happens, if and only if
   at that moment no goroutine is about to call it with v and no publisher has it still to serve.
   */
  lemma {:induction false} CancelIsFinalExactly(h: seq<Event>, o: nat, v: Status)
    requires Run(FRESH, Next, h).Some? && o < Observes(h) && !Subscribed(h, o)
    ensures NothingUnderWay(Run(FRESH, Next, h).value, o, v) <==>
            forall after | Run(FRESH, Next, h + after).Some? :: Deliver(o, v) !in after
  {
    var s := Run(FRESH, Next, h).value;
    if NothingUnderWay(s, o, v) {
      forall after | Run(FRESH, Next, h + after).Some? ensures Deliver(o, v) !in after {
        BooksBalance(h, o, v);
        BooksBalance(h + after, o, v);
        NothingOwedAfterCancel(h, after, o, v);
        Split(FRESH, Next, h, after);
        DeliveredGrows(s, after, o, v);
      }
    } else {
      var after := WayReaches(s, o, v);
      Split(FRESH, Next, h, after);
    }
  }

  // ---------------------------------------------------------------- the critical sections on an object

  /** Authenticator, with the goroutines it has started; a handler is named by the id it was registered under. */
  class Authenticator {
    var statusObservers: set<nat>
    var nextObserverId: nat
    var currentStatus: Status
    var started: multiset<(nat, Status)>

    ghost predicate Valid()
      reads this
    {
      forall o <- statusObservers :: o < nextObserverId
    }

    constructor ()
      ensures Valid() && statusObservers == {} && nextObserverId == 0 && currentStatus == INITIAL && started == multiset{}
    {
      statusObservers, nextObserverId, currentStatus, started := {}, 0, INITIAL, multiset{};
    }

    method ObserveStatus() returns (id: nat)
      requires Valid()
      modifies this
      ensures Valid() && id == old(nextObserverId) && id !in old(statusObservers)
      ensures statusObservers == old(statusObservers) + {id} && nextObserverId == old(nextObserverId) + 1
      ensures currentStatus == old(currentStatus) && started == old(started) + multiset{(id, currentStatus)}
    {
      id := nextObserverId;
      nextObserverId := nextObserverId + 1;
      statusObservers := statusObservers + {id};
      started := started + multiset{(id, currentStatus)};
    }

    /** The critical section of notifyStatusObservers: sets the status, and copies the observers in some order. */
    method Snapshot(newStatus: Status) returns (observers: seq<nat>)
      modifies this`currentStatus
      ensures currentStatus == newStatus
      ensures multiset(observers) == multiset(statusObservers)
    {
      currentStatus := newStatus;
      observers := [];
      var left := statusObservers;
      while left != {}
        invariant left <= statusObservers
        invariant multiset(observers) == multiset(statusObservers - left)
        decreases left
      {
        var o :| o in left;
        assert statusObservers - (left - {o}) == (statusObservers - left) + {o};
        observers := observers + [o];
        left := left - {o};
      }
      assert statusObservers - {} == statusObservers;
    }

    /** notifyStatusObservers with nobody in between: one goroutine for each registered observer. */
    method NotifyStatusObservers(newStatus: Status)
      modifies this`currentStatus, this`started
      ensures currentStatus == newStatus
      ensures forall o, v :: started[(o, v)] == old(started)[(o, v)] + if o in statusObservers && v == newStatus then 1 else 0
    {
      var observers := Snapshot(newStatus);
      var i := 0;
      while i < |observers|
        invariant 0 <= i <= |observers| && currentStatus == newStatus
        invariant forall o, v :: started[(o, v)] == old(started)[(o, v)] + if v == newStatus then multiset(observers[..i])[o] else 0
      {
        assert observers[..i + 1] == observers[..i] + [observers[i]];
        started := started + multiset{(observers[i], newStatus)};
        i := i + 1;
      }
      assert observers[..i] == observers;
    }

    method Cancel(id: nat)
      requires Valid()
      modifies this`statusObservers
      ensures Valid() && statusObservers == old(statusObservers) - {id}
    {
      statusObservers := statusObservers - {id};
    }
  }
}
