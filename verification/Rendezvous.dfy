/**
 The bridge from C's asynchronous transaction calls to blocking Go functions: a request stores
 a closure under a fresh id, gives the id to C, and waits on a channel with one slot. C calls
 back at most once, with the id, and frees the id at the end; the waiting function also drops it.

 Every atomic step of every party is an event, so a run is any interleaving of any number of
 requests of the three kinds with C's callbacks and frees.
 */
module Rendezvous {
  import opened Wrappers
  import opened Runs

  datatype Kind = Begin | Execute | Complete

  /** The env pointer given to C: an id, in the registry of its kind. */
  datatype Key = Key(kind: Kind, id: nat)

  /** What C passes to the callback: an error, whose description may be missing, or a payload. */
  datatype CResult = CError(description: Option<string>) | CSuccess(payload: int)

  /** What the waiting Go function returns; a handle is named by its C pointer, an action by its code. */
  datatype GoResult = GoResult(value: Option<int>, err: Option<string>)

  const ROLLBACK := 1

  /** goTransaction*Callback: the arguments it passes to the stored closure. */
  function ClosureArguments(kind: Kind, c: CResult): GoResult {
    match c
    case CError(description) =>
      var message := match description case None => "" case Some(text) => text;
      match kind {
        case Begin => GoResult(None, Some("transaction begin failed: " + message))
        case Execute => GoResult(None, Some("transaction execute failed: " + message))
        case Complete => GoResult(Some(0), Some("transaction complete failed: " + message))
      }
    case CSuccess(payload) => GoResult(Some(payload), None)
  }

  /** The stored closure: what it puts into the channel. */
  function Closure(kind: Kind, a: GoResult): GoResult {
    match kind
    case Begin =>
      if a.err.Some? then GoResult(None, a.err)
      else if a.value.None? then GoResult(None, Some("transaction handle is nil"))
      else GoResult(a.value, None)
    case Execute =>
      if a.err.Some? then GoResult(None, a.err)
      else if a.value.None? then GoResult(None, Some("query result is nil"))
      else GoResult(a.value, None)
    case Complete =>
      if a.err.Some? then GoResult(Some(ROLLBACK), a.err) else GoResult(a.value, None)
  }

  function Delivered(kind: Kind, c: CResult): GoResult { Closure(kind, ClosureArguments(kind, c)) }

  /**
   A nil error goes with C's own payload, an error with no handle or with a rollback, and it says what
   failed and how C describes it; the closures' nil checks never fire.
   */
  lemma {:induction false} DeliveredFaithfully(kind: Kind, c: CResult)
    ensures Delivered(kind, c).err.None? <==> c.CSuccess?
    ensures c.CSuccess? ==> Delivered(kind, c).value == Some(c.payload)
    ensures c.CError? ==> Delivered(kind, c).value == if kind.Complete? then Some(ROLLBACK) else None
    ensures c.CError? ==>
              Delivered(kind, c).err ==
              Some((if kind.Begin? then "transaction begin failed: "
                    else if kind.Execute? then "transaction execute failed: "
                    else "transaction complete failed: ") + if c.description.Some? then c.description.value else "")
    ensures Delivered(kind, c).err != Some("transaction handle is nil") && Delivered(kind, c).err != Some("query result is nil")
  {}

  // ---------------------------------------------------------------- the state

  /** Where a blocking Go function stands. */
  datatype Phase =
    | Numbered                       // its id is drawn
    | Registered                     // its closure is stored
    | Waiting                        // C has the id
    | Received(result: GoResult)     // the channel has delivered
    | Returned(result: GoResult)     // its deferred unregister has run

  /** A blocking Go function; `slot` is its channel. */
  datatype Caller = Caller(key: Key, phase: Phase, slot: Option<GoResult>)

  /** Where C stands with a continuation. */
  datatype CPhase =
    | Held                                    // not called yet
    | Entered(result: CResult)                // in the callback, before the lookup
    | Found(caller: nat, result: CResult)     // in the callback, holding the closure
    | Called
    | Freed

  /** A continuation that C owns, and what C has produced for it. */
  datatype Continuation = Continuation(phase: CPhase, produced: Option<CResult>)

  datatype State = State(
    counters: map<Kind, nat>,
    registry: map<Key, nat>,              // the three registries; a closure is named by its caller
    callers: map<nat, Caller>,
    continuations: map<Key, Continuation>)

  const START := State(map[Begin := 0, Execute := 0, Complete := 0], map[], map[], map[])

  datatype Event =
    | Number(caller: nat, kind: Kind)
    | Register(caller: nat)
    | HandToC(caller: nat)
    | Receive(caller: nat)
    | Unregister(caller: nat)
    | Enter(key: Key, result: CResult)
    | LookUp(key: Key)
    | Send(key: Key)
    | Free(key: Key)

  function InPhase(s: State, c: nat, p: Phase): bool { c in s.callers && s.callers[c].phase == p }

  function With(s: State, c: nat, caller: Caller): State { s.(callers := s.callers[c := caller]) }

  function WithC(s: State, k: Key, t: Continuation): State { s.(continuations := s.continuations[k := t]) }

  function Next(s: State, e: Event): Option<State> {
    match e
    case Number(c, kind) =>
      if c in s.callers || kind !in s.counters then None
      else
        var id := s.counters[kind] + 1;
        Some(With(s.(counters := s.counters[kind := id]), c, Caller(Key(kind, id), Numbered, None)))
    case Register(c) =>
      if !InPhase(s, c, Numbered) then None
      else Some(With(s.(registry := s.registry[s.callers[c].key := c]), c, s.callers[c].(phase := Registered)))
    case HandToC(c) =>
      if !InPhase(s, c, Registered) then None
      else Some(WithC(With(s, c, s.callers[c].(phase := Waiting)), s.callers[c].key, Continuation(Held, None)))
    case Receive(c) =>
      if !InPhase(s, c, Waiting) || s.callers[c].slot.None? then None
      else Some(With(s, c, s.callers[c].(phase := Received(s.callers[c].slot.value), slot := None)))
    case Unregister(c) =>
      if c !in s.callers || !s.callers[c].phase.Received? then None
      else Some(With(s.(registry := s.registry - {s.callers[c].key}), c,
                     s.callers[c].(phase := Returned(s.callers[c].phase.result))))
    case Enter(k, r) =>
      if k !in s.continuations || !s.continuations[k].phase.Held? then None
      else Some(WithC(s, k, Continuation(Entered(r), Some(r))))
    case LookUp(k) =>
      if k !in s.continuations || !s.continuations[k].phase.Entered? then None
      else
        var t := s.continuations[k];
        Some(WithC(s, k, t.(phase := if k in s.registry then Found(s.registry[k], t.phase.result) else Called)))
    case Send(k) =>
      if !CanSend(s, k) then None
      else
        var t := s.continuations[k];
        var c := t.phase.caller;
        Some(WithC(With(s, c, s.callers[c].(slot := Some(Delivered(k.kind, t.phase.result)))), k, t.(phase := Called)))
    case Free(k) =>
      if k !in s.continuations || !(s.continuations[k].phase.Held? || s.continuations[k].phase.Called?) then None
      else Some(WithC(s.(registry := s.registry - {k}), k, s.continuations[k].(phase := Freed)))
  }

  /** The send on the channel blocks while the slot is full. */
  predicate CanSend(s: State, k: Key) {
    && k in s.continuations && s.continuations[k].phase.Found?
    && s.continuations[k].phase.caller in s.callers
    && s.callers[s.continuations[k].phase.caller].slot.None?
  }

  // ---------------------------------------------------------------- the invariant

  ghost predicate KeysIssued(s: State) {
    && s.counters.Keys == {Begin, Execute, Complete}
    && (forall c <- s.callers :: Issued(s, s.callers[c].key))
    && (forall k <- s.registry :: Issued(s, k))
    && (forall k <- s.continuations :: Issued(s, k))
  }

  ghost predicate Issued(s: State, k: Key) { k.kind in s.counters && 0 < k.id <= s.counters[k.kind] }

  ghost predicate KeysDistinct(s: State) {
    forall c <- s.callers, d <- s.callers | s.callers[c].key == s.callers[d].key :: c == d
  }

  ghost predicate RegistryOwned(s: State) {
    forall k <- s.registry :: Owns(s, s.registry[k], k) && InFlight(s.callers[s.registry[k]].phase)
  }

  ghost predicate Owns(s: State, c: nat, k: Key) { c in s.callers && s.callers[c].key == k }

  ghost predicate InFlight(p: Phase) { p.Registered? || p.Waiting? || p.Received? }

  /** What C's side of a request looks like while its caller waits, and what the slot then holds. */
  ghost predicate Agreed(s: State, c: nat)
    requires c in s.callers
  {
    var me := s.callers[c];
    var k := me.key;
    match me.phase
    case Numbered => me.slot.None? && k !in s.continuations && k !in s.registry
    case Registered => me.slot.None? && k !in s.continuations && k in s.registry
    case Waiting => k in s.continuations && SlotMatches(s, c, s.continuations[k])
    case Received(g) => me.slot.None? && Answered(s, k, g)
    case Returned(g) => me.slot.None? && Answered(s, k, g) && k !in s.registry
  }

  ghost predicate SlotMatches(s: State, c: nat, t: Continuation)
    requires c in s.callers
  {
    var me := s.callers[c];
    match t.phase
    case Held => t.produced.None? && me.slot.None? && me.key in s.registry
    case Entered(r) => t.produced == Some(r) && me.slot.None? && me.key in s.registry
    case Found(d, r) => t.produced == Some(r) && me.slot.None? && d == c
    case Called => t.produced.Some? && me.slot == Some(Delivered(me.key.kind, t.produced.value))
    case Freed =>
      if t.produced.None? then me.slot.None? else me.slot == Some(Delivered(me.key.kind, t.produced.value))
  }

  ghost predicate Answered(s: State, k: Key, g: GoResult) {
    && k in s.continuations
    && (s.continuations[k].phase.Called? || s.continuations[k].phase.Freed?)
    && s.continuations[k].produced.Some?
    && g == Delivered(k.kind, s.continuations[k].produced.value)
  }

  ghost predicate FoundOwner(s: State) {
    forall k <- s.continuations | s.continuations[k].phase.Found? :: Owns(s, s.continuations[k].phase.caller, k)
  }

  ghost predicate HasCaller(s: State) {
    forall k <- s.continuations :: exists c :: Owns(s, c, k)
  }

  ghost predicate Inv(s: State) {
    && KeysIssued(s) && KeysDistinct(s) && RegistryOwned(s) && FoundOwner(s) && HasCaller(s)
    && (forall c <- s.callers :: Agreed(s, c))
  }

  lemma {:induction false} IssuedKept(s: State, e: Event)
    requires KeysIssued(s) && Next(s, e).Some?
    ensures KeysIssued(Next(s, e).value)
  {
    var t := Next(s, e).value;
    forall k: Key | Issued(s, k) ensures Issued(t, k) {}
  }

  lemma {:induction false} DistinctKept(s: State, e: Event)
    requires KeysIssued(s) && KeysDistinct(s) && Next(s, e).Some?
    ensures KeysDistinct(Next(s, e).value)
  {
    var t := Next(s, e).value;
    forall c <- s.callers ensures t.callers[c].key == s.callers[c].key {}
    if e.Number? {
      assert !Issued(s, t.callers[e.caller].key);
    }
  }

  lemma {:induction false} OwnersKept(s: State, e: Event)
    requires Next(s, e).Some?
    ensures forall c, k | Owns(s, c, k) :: Owns(Next(s, e).value, c, k)
  {}

  lemma {:induction false} RegistryKept(s: State, e: Event)
    requires Inv(s) && Next(s, e).Some?
    ensures RegistryOwned(Next(s, e).value)
  {
    var t := Next(s, e).value;
    OwnersKept(s, e);
    forall k <- t.registry ensures Owns(t, t.registry[k], k) && InFlight(t.callers[t.registry[k]].phase) {
      assert k in s.registry || e.Register?;
    }
  }

  lemma {:induction false} ContinuationsKept(s: State, e: Event)
    requires Inv(s) && Next(s, e).Some?
    ensures FoundOwner(Next(s, e).value) && HasCaller(Next(s, e).value)
  {
    var t := Next(s, e).value;
    OwnersKept(s, e);
    forall k <- t.continuations ensures exists c :: Owns(t, c, k) {
      if k in s.continuations {
        var c :| Owns(s, c, k);
        assert Owns(t, c, k);
      } else {
        assert Owns(t, e.caller, k);
      }
    }
  }

  /** A step of one request does not show in another. */
  lemma {:induction false} AgreedElsewhere(s: State, e: Event, c: nat)
    requires Inv(s) && Next(s, e).Some? && c in s.callers
    requires match e
      case Number(d, _) => c != d
      case Register(d) => c != d
      case HandToC(d) => c != d
      case Receive(d) => c != d
      case Unregister(d) => c != d
      case Enter(k, _) => s.callers[c].key != k
      case LookUp(k) => s.callers[c].key != k
      case Send(k) => s.callers[c].key != k
      case Free(k) => s.callers[c].key != k
    ensures Agreed(Next(s, e).value, c)
  {
    assert Agreed(s, c);
  }

  /** The steps of the waiting function itself. */
  lemma {:induction false} AgreedAfterOwnStep(s: State, e: Event)
    requires Inv(s) && Next(s, e).Some?
    requires e.Number? || e.Register? || e.HandToC? || e.Receive? || e.Unregister?
    ensures Agreed(Next(s, e).value, e.caller)
  {
    if e.Number? {
      assert !Issued(s, Next(s, e).value.callers[e.caller].key);
    } else {
      assert Agreed(s, e.caller);
    }
  }

  /** The steps of C on the function's own continuation. */
  lemma {:induction false} AgreedAfterCStep(s: State, e: Event, c: nat)
    requires KeysDistinct(s) && RegistryOwned(s) && FoundOwner(s) && Next(s, e).Some? && c in s.callers && Agreed(s, c)
    requires e.Enter? || e.LookUp? || e.Send? || e.Free?
    requires s.callers[c].key == e.key
    ensures Agreed(Next(s, e).value, c)
  {
    assert Owns(s, c, e.key);
  }

  lemma {:induction false} StepKeepsInv(s: State, e: Event)
    requires Inv(s) && Next(s, e).Some?
    ensures Inv(Next(s, e).value)
  {
    IssuedKept(s, e);
    DistinctKept(s, e);
    RegistryKept(s, e);
    ContinuationsKept(s, e);
    var byCaller := e.Number? || e.Register? || e.HandToC? || e.Receive? || e.Unregister?;
    forall c <- Next(s, e).value.callers ensures Agreed(Next(s, e).value, c) {
      if byCaller && e.caller == c {
        AgreedAfterOwnStep(s, e);
      } else if !byCaller && s.callers[c].key == e.key {
        assert Agreed(s, c);
        AgreedAfterCStep(s, e, c);
      } else {
        AgreedElsewhere(s, e, c);
      }
    }
  }

  lemma {:induction false} InvHolds(events: seq<Event>)
    requires Run(START, Next, events).Some?
    ensures Inv(Run(START, Next, events).value)
  {
    forall s, e | Inv(s) && Next(s, e).Some? ensures Inv(Next(s, e).value) { StepKeepsInv(s, e); }
    Invariance(START, Next, Inv, events);
  }

  // ---------------------------------------------------------------- what it means for the callers

  /** A blocking function that has returned, returned what C produced for its own id, translated. */
  lemma {:induction false} EachGetsItsOwnResult(events: seq<Event>, c: nat)
    requires Run(START, Next, events).Some?
    requires var s := Run(START, Next, events).value; c in s.callers && s.callers[c].phase.Returned?
    ensures var s := Run(START, Next, events).value;
            var k := s.callers[c].key;
            && k in s.continuations && s.continuations[k].produced.Some?
            && s.callers[c].phase.result == Delivered(k.kind, s.continuations[k].produced.value)
            && (forall d <- s.callers | d != c :: s.callers[d].key != k)
  {
    InvHolds(events);
    assert Agreed(Run(START, Next, events).value, c);
  }

  /** C's thread is never blocked in a callback: the lookup finds the caller's closure, and the send finds an empty slot. */
  lemma {:induction false} CallbackNeverBlocks(events: seq<Event>, k: Key)
    requires Run(START, Next, events).Some?
    requires k in Run(START, Next, events).value.continuations
    ensures var s := Run(START, Next, events).value;
            && (s.continuations[k].phase.Entered? ==> k in s.registry && Owns(s, s.registry[k], k))
            && (s.continuations[k].phase.Found? ==> CanSend(s, k))
  {
    InvHolds(events);
    var s := Run(START, Next, events).value;
    var c :| Owns(s, c, k);
    assert Agreed(s, c);
  }

  /** Once C's callback is over, its result is in the caller's slot or already with the caller: nothing is lost. */
  lemma {:induction false} NoResultIsLost(events: seq<Event>, k: Key) returns (c: nat)
    requires Run(START, Next, events).Some?
    requires var s := Run(START, Next, events).value;
             && k in s.continuations && s.continuations[k].produced.Some?
             && (s.continuations[k].phase.Called? || s.continuations[k].phase.Freed?)
    ensures var s := Run(START, Next, events).value;
            && Owns(s, c, k)
            && var g := Delivered(k.kind, s.continuations[k].produced.value);
               || (s.callers[c].phase.Waiting? && s.callers[c].slot == Some(g) && Next(s, Receive(c)).Some?)
               || s.callers[c].phase == Received(g) || s.callers[c].phase == Returned(g)
  {
    InvHolds(events);
    var s := Run(START, Next, events).value;
    c :| Owns(s, c, k);
    assert Agreed(s, c);
  }

  /** A registry holds only ids of functions that have not returned; when all have, it is empty. */
  lemma {:induction false} RegistryHoldsRequestsInFlight(events: seq<Event>)
    requires Run(START, Next, events).Some?
    ensures var s := Run(START, Next, events).value;
            && (forall k <- s.registry :: Owns(s, s.registry[k], k) && InFlight(s.callers[s.registry[k]].phase))
            && ((forall c <- s.callers :: s.callers[c].phase.Returned?) ==> s.registry == map[])
  {
    InvHolds(events);
  }

  /** A function waits for ever only if C has not finished its callback: either not called back yet, or freed uncalled. */
  lemma {:induction false} WaitsOnlyForC(events: seq<Event>, c: nat)
    requires Run(START, Next, events).Some?
    requires var s := Run(START, Next, events).value; InPhase(s, c, Waiting) && Next(s, Receive(c)).None?
    ensures var s := Run(START, Next, events).value;
            var k := s.callers[c].key;
            && k in s.continuations && !s.continuations[k].phase.Called?
            && (s.continuations[k].phase.Freed? ==> s.continuations[k].produced.None?)
  {
    InvHolds(events);
    assert Agreed(Run(START, Next, events).value, c);
  }

  /** The steps of one request and of C's answer to it, in their natural order. */
  function Request(c: nat, k: Key, r: CResult): seq<Event> {
    [Number(c, k.kind), Register(c), HandToC(c), Enter(k, r), LookUp(k), Send(k), Receive(c), Unregister(c)]
  }

  /** A request that nobody interrupts returns C's answer, and leaves the registries as they were. */
  lemma {:induction false} RequestAlone(events: seq<Event>, s: State, c: nat, kind: Kind, r: CResult) returns (k: Key)
    requires Run(START, Next, events) == Some(s) && c !in s.callers
    ensures k.kind == kind && Run(s, Next, Request(c, k, r)).Some?
    ensures var t := Run(s, Next, Request(c, k, r)).value;
            && t.callers == s.callers[c := Caller(k, Returned(Delivered(kind, r)), None)]
            && t.registry == s.registry
  {
    InvHolds(events);
    assert kind in s.counters;
    k := Key(kind, s.counters[kind] + 1);
    assert !Issued(s, k);
    RequestRuns(s, c, k, r);
  }

  lemma {:induction false} RequestRuns(s: State, c: nat, k: Key, r: CResult)
    requires c !in s.callers && k.kind in s.counters && k.id == s.counters[k.kind] + 1 && k !in s.registry
    ensures Run(s, Next, Request(c, k, r)).Some?
    ensures var t := Run(s, Next, Request(c, k, r)).value;
            && t.callers == s.callers[c := Caller(k, Returned(Delivered(k.kind, r)), None)]
            && t.registry == s.registry
  {
    hide Next;
    var t := HandedToC(s, c, k, r);
    AnsweredByC(t, c, k, r);
    var first, second := [Number(c, k.kind), Register(c), HandToC(c)], [Enter(k, r), LookUp(k), Send(k), Receive(c), Unregister(c)];
    Split(s, Next, first, second);
    assert Request(c, k, r) == first + second;
    assert s.registry[k := c] - {k} == s.registry;
  }

  lemma {:induction false} HandedToC(s: State, c: nat, k: Key, r: CResult) returns (t: State)
    requires c !in s.callers && k.kind in s.counters && k.id == s.counters[k.kind] + 1
    ensures Run(s, Next, [Number(c, k.kind), Register(c), HandToC(c)]) == Some(t)
    ensures t.callers == s.callers[c := Caller(k, Waiting, None)] && t.registry == s.registry[k := c]
    ensures t.continuations == s.continuations[k := Continuation(Held, None)]
  {
    var s1 := Next(s, Number(c, k.kind)).value;
    var s2 := Next(s1, Register(c)).value;
    t := Next(s2, HandToC(c)).value;
    Extend(s, Next, [], s, Number(c, k.kind));
    Extend(s, Next, [Number(c, k.kind)], s1, Register(c));
    Extend(s, Next, [Number(c, k.kind), Register(c)], s2, HandToC(c));
    assert [] + [Number(c, k.kind)] == [Number(c, k.kind)];
    assert [Number(c, k.kind)] + [Register(c)] == [Number(c, k.kind), Register(c)];
    assert [Number(c, k.kind), Register(c)] + [HandToC(c)] == [Number(c, k.kind), Register(c), HandToC(c)];
  }

  lemma {:induction false} AnsweredByC(s: State, c: nat, k: Key, r: CResult)
    requires c in s.callers && s.callers[c] == Caller(k, Waiting, None) && k in s.registry && s.registry[k] == c
    requires k in s.continuations && s.continuations[k] == Continuation(Held, None)
    ensures Run(s, Next, [Enter(k, r), LookUp(k), Send(k), Receive(c), Unregister(c)]).Some?
    ensures var t := Run(s, Next, [Enter(k, r), LookUp(k), Send(k), Receive(c), Unregister(c)]).value;
            t.callers == s.callers[c := Caller(k, Returned(Delivered(k.kind, r)), None)] && t.registry == s.registry - {k}
  {
    hide Next;
    var t := CalledBack(s, c, k, r);
    Takes(t, c, k, Delivered(k.kind, r));
    assert [Enter(k, r), LookUp(k), Send(k), Receive(c), Unregister(c)]
        == [Enter(k, r), LookUp(k), Send(k)] + [Receive(c), Unregister(c)];
    Split(s, Next, [Enter(k, r), LookUp(k), Send(k)], [Receive(c), Unregister(c)]);
  }

  lemma {:induction false} CalledBack(s: State, c: nat, k: Key, r: CResult) returns (t: State)
    requires c in s.callers && s.callers[c] == Caller(k, Waiting, None) && k in s.registry && s.registry[k] == c
    requires k in s.continuations && s.continuations[k] == Continuation(Held, None)
    ensures Run(s, Next, [Enter(k, r), LookUp(k), Send(k)]) == Some(t) && t.registry == s.registry
    ensures t.callers == s.callers[c := Caller(k, Waiting, Some(Delivered(k.kind, r)))]
  {
    var s1 := Next(s, Enter(k, r)).value;
    var s2 := Next(s1, LookUp(k)).value;
    t := Next(s2, Send(k)).value;
    Extend(s, Next, [], s, Enter(k, r));
    Extend(s, Next, [Enter(k, r)], s1, LookUp(k));
    Extend(s, Next, [Enter(k, r), LookUp(k)], s2, Send(k));
    assert [] + [Enter(k, r)] == [Enter(k, r)];
    assert [Enter(k, r)] + [LookUp(k)] == [Enter(k, r), LookUp(k)];
    assert [Enter(k, r), LookUp(k)] + [Send(k)] == [Enter(k, r), LookUp(k), Send(k)];
  }

  lemma {:induction false} Takes(s: State, c: nat, k: Key, g: GoResult)
    requires c in s.callers && s.callers[c] == Caller(k, Waiting, Some(g))
    ensures Run(s, Next, [Receive(c), Unregister(c)]).Some?
    ensures var t := Run(s, Next, [Receive(c), Unregister(c)]).value;
            t.callers == s.callers[c := Caller(k, Returned(g), None)] && t.registry == s.registry - {k}
  {
    var s1 := Next(s, Receive(c)).value;
    Extend(s, Next, [], s, Receive(c));
    Extend(s, Next, [Receive(c)], s1, Unregister(c));
    assert [] + [Receive(c)] == [Receive(c)];
    assert [Receive(c)] + [Unregister(c)] == [Receive(c), Unregister(c)];
    assert Next(s1, Unregister(c)).value.callers == s.callers[c := Caller(k, Returned(g), None)];
  }
}
