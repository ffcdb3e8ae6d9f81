/**
 Goroutines inside the public calls of Ditto, Sync, SyncSubscription, Store and StoreObserver,
 at the grain of single lock operations and of the statements between them.

 Every call is a list of instructions written in the order of its Go statements; a goroutine
 is the list it has still to execute and the locks it holds. Any number of goroutines may be
 started at any time, and the scheduler picks any of them for the next step.
 */
module Lifecycle {
  import opened Wrappers
  import opened Registrations

  /** The two lists of registrations that a Ditto instance owns. */
  datatype Kind = Subscriptions | Observers

  /**
   The mutexes. ListMu(Subscriptions) is Sync.mu and ListMu(Observers) is Store.mu;
   EntryMu is the mutex of one SyncSubscription or StoreObserver.
   */
  datatype Mutex = DittoMu | ListMu(kind: Kind) | EntryMu(kind: Kind, id: nat)
  {
    function Rank(): nat {
      match this
      case DittoMu => 0
      case ListMu(_) => 1
      case EntryMu(_, _) => 2
    }
  }

  /** A lock held by a goroutine, for writing (Lock) or for reading (RLock). */
  datatype Hold = Hold(mutex: Mutex, write: bool)

  datatype Instr =
    | Lock(mutex: Mutex)            // announces a writer: from here on new readers are kept out
    | Acquire(mutex: Mutex)         // the second half of Lock: waits for the holders to leave
    | RLock(mutex: Mutex)
    | Unlock(mutex: Mutex)          // Unlock or RUnlock, whichever matches the hold
    | ReturnIfClosed(mutex: Mutex)       // if ditto.closed { return }, with its deferred unlock
    | ReturnIfHandleFreed(mutex: Mutex)  // if !dittoHandle.IsValid() { return }
    | New(kind: Kind)               // registers with C, and appends to the list on success
    | Cancel(kind: Kind, id: nat)   // the guarded body of cancel
    | Remove(id: nat)               // takes a subscription out of the list
    | CancelEach(kind: Kind)        // the loop of cancelAllSubscriptions or cancelAllObservers
    | Clear(kind: Kind)             // list = nil
    | StartSync
    | StopSync
    | FreeHandle
    | SetClosed
    | Read                          // reads state guarded by the locks held, returns it

  datatype Shared = Shared(
    closed: bool,
    syncActive: bool,
    handleFreed: bool,
    dittoFrees: nat,
    subscriptions: Registry,
    observers: Registry)
  {
    function Of(k: Kind): Registry { if k.Subscriptions? then subscriptions else observers }

    function With(k: Kind, r: Registry): Shared {
      if k.Subscriptions? then this.(subscriptions := r) else this.(observers := r)
    }
  }

  datatype Goroutine = Goroutine(held: seq<Hold>, code: seq<Instr>)

  datatype State = State(shared: Shared, goroutines: map<nat, Goroutine>)

  // ---------------------------------------------------------------- the calls

  datatype Call =
    | CloseCall
    | IsClosedCall
    | StartCall
    | StopCall
    | RegisterCall(kind: Kind)
    | ListCall
    | CancelCall(kind: Kind, id: nat)
    | IsCanceledCall(kind: Kind, id: nat)

  /** mu.Lock(); defer mu.Unlock(); body */
  function Locked(m: Mutex, body: seq<Instr>): seq<Instr> { [Lock(m)] + body + [Unlock(m)] }

  /** mu.RLock(); defer mu.RUnlock(); body */
  function RLocked(m: Mutex, body: seq<Instr>): seq<Instr> { [RLock(m)] + body + [Unlock(m)] }

  /** cancelAllSubscriptions and cancelAllObservers */
  function CancelAll(k: Kind): seq<Instr> { Locked(ListMu(k), [CancelEach(k), Clear(k)]) }

  function Code(call: Call): seq<Instr> {
    match call
    case CloseCall =>
      Locked(DittoMu, [ReturnIfClosed(DittoMu)] + CancelAll(Observers) + CancelAll(Subscriptions)
                      + [StopSync, FreeHandle, SetClosed])
    case IsClosedCall => RLocked(DittoMu, [Read])
    case StartCall => Locked(DittoMu, [ReturnIfClosed(DittoMu), StartSync])
    case StopCall => Locked(DittoMu, [ReturnIfClosed(DittoMu), StopSync])
    case RegisterCall(Subscriptions) => Locked(ListMu(Subscriptions), [ReturnIfClosed(ListMu(Subscriptions)), New(Subscriptions)])
    case RegisterCall(Observers) => Locked(ListMu(Observers), [ReturnIfHandleFreed(ListMu(Observers)), New(Observers)])
    case ListCall => RLocked(ListMu(Subscriptions), [Read])
    case CancelCall(Subscriptions, x) =>
      Locked(EntryMu(Subscriptions, x), [Cancel(Subscriptions, x)]) + Locked(ListMu(Subscriptions), [Remove(x)])
    case CancelCall(Observers, o) => Locked(EntryMu(Observers, o), [Cancel(Observers, o)])
    case IsCanceledCall(k, x) => Locked(EntryMu(k, x), [Read])
  }

  /** The loop of a cancel-all, unrolled over the list it ranges over. */
  function CancelLoop(k: Kind, list: seq<nat>): seq<Instr> {
    if list == [] then []
    else Locked(EntryMu(k, list[0]), [Cancel(k, list[0])]) + CancelLoop(k, list[1..])
  }

  // ---------------------------------------------------------------- one step

  /** What an instruction does to the shared state; `fails` is C's answer to a registration or a start. */
  function Effect(s: Shared, instr: Instr, fails: bool): Shared {
    match instr
    case New(k) => if fails then s else s.With(k, s.Of(k).Registered())
    case Cancel(k, x) => s.With(k, s.Of(k).Canceled(x))
    case Remove(x) => s.(subscriptions := s.subscriptions.Removed(x))
    case Clear(k) => s.With(k, s.Of(k).(list := []))
    case StartSync => if fails then s else s.(syncActive := true)
    case StopSync => s.(syncActive := false)
    case FreeHandle => if s.handleFreed then s else s.(handleFreed := true, dittoFrees := s.dittoFrees + 1)
    case SetClosed => s.(closed := true)
    case _ => s
  }

  /** The instructions left after executing the first one. */
  function Continue(s: Shared, instr: Instr, rest: seq<Instr>): seq<Instr> {
    match instr
    case Lock(m) => [Acquire(m)] + rest
    case ReturnIfClosed(m) => if s.closed then [Unlock(m)] else rest
    case ReturnIfHandleFreed(m) => if s.handleFreed then [Unlock(m)] else rest
    case CancelEach(k) => CancelLoop(k, s.Of(k).list) + rest
    case _ => rest
  }

  function Release(held: seq<Hold>, m: Mutex): seq<Hold> {
    if held == [] then []
    else if held[|held| - 1].mutex == m then held[..|held| - 1]
    else Release(held[..|held| - 1], m) + [held[|held| - 1]]
  }

  function HeldAfter(held: seq<Hold>, instr: Instr): seq<Hold> {
    match instr
    case Acquire(m) => held + [Hold(m, true)]
    case RLock(m) => held + [Hold(m, false)]
    case Unlock(m) => Release(held, m)
    case _ => held
  }

  predicate Holds(g: Goroutine, m: Mutex, write: bool) { Hold(m, write) in g.held }

  predicate NobodyHolds(s: State, m: Mutex) {
    forall g <- s.goroutines :: !Holds(s.goroutines[g], m, true) && !Holds(s.goroutines[g], m, false)
  }

  /** Go's RWMutex lets no new reader in while a writer holds the lock or waits for it. */
  predicate ReadersMayEnter(s: State, m: Mutex) {
    forall g <- s.goroutines :: !Holds(s.goroutines[g], m, true) && !Waits(s.goroutines[g], m)
  }

  predicate Waits(g: Goroutine, m: Mutex) { g.code != [] && g.code[0] == Acquire(m) }

  /** Whether goroutine g can execute its next instruction now. */
  predicate CanMove(s: State, g: nat) {
    && g in s.goroutines && s.goroutines[g].code != []
    && match s.goroutines[g].code[0]
       case Acquire(m) => NobodyHolds(s, m)
       case RLock(m) => ReadersMayEnter(s, m)
       case _ => true
  }

  datatype Event =
    | Spawn(goroutine: nat, call: Call)
    | Move(goroutine: nat, fails: bool)

  /** A call on a subscription or observer can only be made once its registration has returned it. */
  predicate Callable(s: Shared, call: Call) {
    match call
    case CancelCall(k, x) => x in s.Of(k).entries
    case IsCanceledCall(k, x) => x in s.Of(k).entries
    case _ => true
  }

  function Next(s: State, e: Event): Option<State> {
    match e
    case Spawn(g, call) =>
      if g in s.goroutines || !Callable(s.shared, call) then None
      else Some(s.(goroutines := s.goroutines[g := Goroutine([], Code(call))]))
    case Move(g, fails) =>
      if !CanMove(s, g) then None else Some(Moved(s, g, fails))
  }

  function Moved(s: State, g: nat, fails: bool): State
    requires g in s.goroutines && s.goroutines[g].code != []
  {
    var me := s.goroutines[g];
    var instr, rest := me.code[0], me.code[1..];
    State(Effect(s.shared, instr, fails),
          s.goroutines[g := Goroutine(HeldAfter(me.held, instr), Continue(s.shared, instr, rest))])
  }

  const OPENED: State := State(Shared(false, false, false, 0, EMPTY_REGISTRY, EMPTY_REGISTRY), map[])
}
