/**
 The lists of subscriptions and observers against the registrations themselves, in every
 reachable state: what is live is listed, what is listed is registered once, and C is asked
 to cancel and to free each registration at most once.
 */
module RegistryAgreement {
  import opened Runs
  import opened Registrations
  import opened Lifecycle
  import opened LockDiscipline

  // ---------------------------------------------------------------- the order of the statements

  /** What may follow an instruction in the same call. */
  ghost predicate MayPrecede(i: Instr, rest: seq<Instr>) {
    match i
    case Lock(m) => LooksAgain(m, rest)
    case Acquire(m) => LooksAgain(m, rest)
    case RLock(_) => SetClosed !in rest
    case ReturnIfClosed(_) => LosesNothing(rest)
    case ReturnIfHandleFreed(_) => LosesNothing(rest) && SetClosed !in rest
    case New(k) => Clear(k) !in rest
    case Cancel(k, x) =>
      && (SetClosed in rest ==> Clear(k) in rest)
      && (k.Subscriptions? ==> Remove(x) in rest || MidCancelAll(rest, Subscriptions))
    case Remove(x) => Cancel(Subscriptions, x) !in rest
    case CancelEach(k) => MidCancelAll(rest, k)
    case Clear(k) => CancelEach(k) !in rest && forall x :: Cancel(k, x) !in rest
    case SetClosed =>
      && (forall k :: Clear(k) !in rest)
      && SetClosed !in rest && StopSync !in rest && FreeHandle !in rest && StartSync !in rest
    case StartSync => ReturnIfClosed(DittoMu) !in rest && SetClosed !in rest
    case _ => true
  }

  /** `code` is inside a cancel-all, past the head of its loop. */
  ghost predicate MidCancelAll(code: seq<Instr>, k: Kind) {
    Clear(k) in code && CancelEach(k) !in code
  }

  /**
   After taking a list's lock, the whole list is cancelled before it is cleared. A Close takes
   Ditto.mu before both lists are cleared and sync is stopped, and an entry's lock before its list
   is cleared. A Start looks at `closed` after taking Ditto.mu.
   */
  ghost predicate LooksAgain(m: Mutex, rest: seq<Instr>) {
    && (m.ListMu? ==> !MidCancelAll(rest, m.kind))
    && (m.DittoMu? && SetClosed in rest ==> StopSync in rest && forall k :: Clear(k) in rest)
    && (m.DittoMu? && StartSync in rest ==> ReturnIfClosed(DittoMu) in rest)
    && (m.EntryMu? && SetClosed in rest ==> Clear(m.kind) in rest)
  }

  /** An early return here drops no removal and no half-done cancel-all. */
  ghost predicate LosesNothing(rest: seq<Instr>) {
    && (forall x :: Remove(x) !in rest)
    && (forall k :: !MidCancelAll(rest, k))
  }

  ghost predicate Ordered(code: seq<Instr>) {
    code != [] ==> MayPrecede(code[0], code[1..]) && Ordered(code[1..])
  }

  lemma {:induction false} OrderedCons(i: Instr, rest: seq<Instr>)
    requires MayPrecede(i, rest) && Ordered(rest)
    ensures Ordered([i] + rest)
  {
    assert ([i] + rest)[1..] == rest;
  }

  lemma {:induction false} CancelAllOrdered(k: Kind, rest: seq<Instr>)
    requires Ordered(rest) && CancelEach(k) !in rest && forall x :: Cancel(k, x) !in rest
    ensures Ordered(CancelAll(k) + rest)
  {
    var c3 := [Unlock(ListMu(k))] + rest;
    var c2 := [Clear(k)] + c3;
    var c1 := [CancelEach(k)] + c2;
    OrderedCons(Unlock(ListMu(k)), rest);
    OrderedCons(Clear(k), c3);
    OrderedCons(CancelEach(k), c2);
    assert CancelEach(k) in c1;
    OrderedCons(Lock(ListMu(k)), c1);
    assert CancelAll(k) + rest == [Lock(ListMu(k))] + c1;
  }

  lemma {:induction false} UnlockOrdered(m: Mutex)
    ensures Ordered([Unlock(m)])
  {
    assert [Unlock(m)][1..] == [];
  }

  lemma {:induction false} CloseEndOrdered()
    ensures Ordered(CloseEnd())
  {
    UnlockOrdered(DittoMu);
    OrderedCons(SetClosed, [Unlock(DittoMu)]);
    OrderedCons(FreeHandle, [SetClosed] + [Unlock(DittoMu)]);
    OrderedCons(StopSync, [FreeHandle] + ([SetClosed] + [Unlock(DittoMu)]));
    assert CloseEnd() == [StopSync] + ([FreeHandle] + ([SetClosed] + [Unlock(DittoMu)]));
  }

  lemma {:induction false} CancelAllContents(k: Kind)
    ensures CancelEach(k) in CancelAll(k)
    ensures forall i <- CancelAll(k) :: i == Lock(ListMu(k)) || i == CancelEach(k) || i == Clear(k) || i == Unlock(ListMu(k))
  {
    assert CancelAll(k)[1] == CancelEach(k);
  }

  lemma {:induction false} CloseEndContents()
    ensures forall i <- CloseEnd() :: !i.Cancel? && !i.Remove? && !i.CancelEach? && !i.Clear?
  {}

  lemma {:induction false} CloseBodyLosesNothing()
    ensures LosesNothing(CloseBody())
  {
    CloseEndContents();
    CancelAllContents(Observers);
    CancelAllContents(Subscriptions);
    forall k: Kind
      ensures CancelEach(k) in CloseBody()
    {
      if k == Subscriptions { assert CancelEach(k) in CancelAll(Subscriptions) + CloseEnd(); }
    }
  }

  lemma {:induction false} CloseBodyOrdered()
    ensures Ordered(CloseBody())
  {
    CloseEndOrdered();
    CloseEndContents();
    CancelAllContents(Subscriptions);
    CancelAllOrdered(Subscriptions, CloseEnd());
    CancelAllOrdered(Observers, CancelAll(Subscriptions) + CloseEnd());
  }

  lemma {:induction false} CloseBodyClears()
    ensures StopSync in CloseBody() && forall k :: Clear(k) in CloseBody()
  {
    assert CloseEnd()[0] == StopSync;
    assert StopSync in CancelAll(Subscriptions) + CloseEnd();
    forall k: Kind ensures Clear(k) in CloseBody() {
      assert CancelAll(k)[2] == Clear(k);
      if k == Subscriptions { assert Clear(k) in CancelAll(Subscriptions) + CloseEnd(); }
    }
  }

  lemma {:induction false} CloseOrdered()
    ensures Ordered(Code(CloseCall))
  {
    CloseBodyOrdered();
    CloseBodyLosesNothing();
    CloseBodyClears();
    CloseStartOrdered(CloseBody());
    CloseCode();
  }

  lemma {:induction false} CloseStartOrdered(rest: seq<Instr>)
    requires Ordered(rest) && LosesNothing(rest) && StopSync in rest && forall k :: Clear(k) in rest
    ensures Ordered([Lock(DittoMu)] + ([ReturnIfClosed(DittoMu)] + rest))
  {
    OrderedCons(ReturnIfClosed(DittoMu), rest);
    OrderedCons(Lock(DittoMu), [ReturnIfClosed(DittoMu)] + rest);
  }

  /** A locked section with one statement. */
  lemma {:induction false} SectionOrdered(take: Instr, i: Instr, rest: seq<Instr>)
    requires take.Lock? || take.RLock?
    requires Ordered(rest) && MayPrecede(i, [Unlock(take.mutex)] + rest) && !i.Clear?
    requires (forall k :: Clear(k) !in rest) && SetClosed !in rest && StartSync !in rest
    requires i != SetClosed && i != StartSync
    ensures Ordered([take] + [i] + [Unlock(take.mutex)] + rest)
  {
    var c2 := [Unlock(take.mutex)] + rest;
    OrderedCons(Unlock(take.mutex), rest);
    OrderedCons(i, c2);
    OrderedCons(take, [i] + c2);
    assert [take] + [i] + [Unlock(take.mutex)] + rest == [take] + ([i] + c2);
  }

  /** A locked section that returns early or goes on to a second statement. */
  lemma {:induction false} GuardedSectionOrdered(m: Mutex, guard: Instr, i: Instr)
    requires guard.ReturnIfClosed? || guard.ReturnIfHandleFreed?
    requires i.New? || i.StartSync? || i.StopSync?
    requires i.StartSync? ==> guard == ReturnIfClosed(m)
    ensures Ordered(Locked(m, [guard, i]))
  {
    UnlockOrdered(m);
    OrderedCons(i, [Unlock(m)]);
    OrderedCons(guard, [i] + [Unlock(m)]);
    OrderedCons(Lock(m), [guard] + ([i] + [Unlock(m)]));
    assert Locked(m, [guard, i]) == [Lock(m)] + ([guard] + ([i] + [Unlock(m)]));
  }

  lemma {:induction false} CallsOrdered(call: Call)
    ensures Ordered(Code(call))
  {
    var code := Code(call);
    match call
    case CloseCall => CloseOrdered();
    case StartCall => GuardedSectionOrdered(DittoMu, ReturnIfClosed(DittoMu), StartSync);
    case StopCall => GuardedSectionOrdered(DittoMu, ReturnIfClosed(DittoMu), StopSync);
    case RegisterCall(Subscriptions) =>
      GuardedSectionOrdered(ListMu(Subscriptions), ReturnIfClosed(ListMu(Subscriptions)), New(Subscriptions));
    case RegisterCall(Observers) =>
      GuardedSectionOrdered(ListMu(Observers), ReturnIfHandleFreed(ListMu(Observers)), New(Observers));
    case CancelCall(Subscriptions, x) =>
      var second := Locked(ListMu(Subscriptions), [Remove(x)]);
      SectionOrdered(Lock(ListMu(Subscriptions)), Remove(x), []);
      assert second == second + [];
      assert second[1] == Remove(x);
      SectionOrdered(Lock(EntryMu(Subscriptions, x)), Cancel(Subscriptions, x), second);
    case CancelCall(Observers, o) => SectionOrdered(Lock(EntryMu(Observers, o)), Cancel(Observers, o), []); assert code == code + [];
    case IsCanceledCall(k, x) => SectionOrdered(Lock(EntryMu(k, x)), Read, []); assert code == code + [];
    case IsClosedCall => SectionOrdered(RLock(DittoMu), Read, []); assert code == code + [];
    case ListCall => SectionOrdered(RLock(ListMu(Subscriptions)), Read, []); assert code == code + [];
  }

  lemma {:induction false} LoopOrdered(k: Kind, list: seq<nat>, rest: seq<Instr>)
    requires Ordered(rest) && MidCancelAll(rest, k)
    ensures Ordered(CancelLoop(k, list) + rest) && MidCancelAll(CancelLoop(k, list) + rest, k)
  {
    if list == [] {
      assert CancelLoop(k, list) + rest == rest;
    } else {
      LoopOrdered(k, list[1..], rest);
      CancelOneOrdered(k, list[0], CancelLoop(k, list[1..]) + rest);
      LoopCode(k, list, rest);
    }
  }

  lemma {:induction false} CancelOneOrdered(k: Kind, x: nat, rest: seq<Instr>)
    requires Ordered(rest) && MidCancelAll(rest, k)
    ensures Ordered(Locked(EntryMu(k, x), [Cancel(k, x)]) + rest)
    ensures MidCancelAll(Locked(EntryMu(k, x), [Cancel(k, x)]) + rest, k)
  {
    var m := EntryMu(k, x);
    var c3 := [Unlock(m)] + rest;
    var c2 := [Cancel(k, x)] + c3;
    MidCancelAllBehind(k, Unlock(m), rest);
    MidCancelAllBehind(k, Cancel(k, x), c3);
    MidCancelAllBehind(k, Lock(m), c2);
    OrderedCons(Unlock(m), rest);
    OrderedCons(Cancel(k, x), c3);
    OrderedCons(Lock(m), c2);
    assert Locked(m, [Cancel(k, x)]) + rest == [Lock(m)] + c2;
  }

  lemma {:induction false} MidCancelAllBehind(k: Kind, i: Instr, rest: seq<Instr>)
    requires MidCancelAll(rest, k) && i != CancelEach(k)
    ensures MidCancelAll([i] + rest, k)
  {}

  lemma {:induction false} LoopCovers(k: Kind, list: seq<nat>, x: nat)
    ensures Cancel(k, x) in CancelLoop(k, list) <==> x in list
    ensures forall i <- CancelLoop(k, list) :: i.Lock? || i.Unlock? || (i.Cancel? && i.kind == k && i.id in list)
  {
    if list != [] {
      LoopCovers(k, list[1..], x);
    }
  }

  lemma {:induction false} MoveOrdered(s: Shared, code: seq<Instr>)
    requires code != [] && Ordered(code)
    ensures Ordered(Continue(s, code[0], code[1..]))
  {
    var rest := code[1..];
    match code[0]
    case Lock(m) => OrderedCons(Acquire(m), rest);
    case ReturnIfClosed(m) => assert Ordered([Unlock(m)]);
    case ReturnIfHandleFreed(m) => assert Ordered([Unlock(m)]);
    case CancelEach(k) => LoopOrdered(k, s.Of(k).list, rest);
    case _ =>
  }

  /** Inside a cancel-all, the lock of the list is held. */
  lemma {:induction false} MidCancelAllHolds(held: seq<Hold>, code: seq<Instr>, k: Kind)
    requires Climbs(held, code) && Ordered(code) && MidCancelAll(code, k)
    ensures Hold(ListMu(k), true) in held
    decreases |code|
  {
    if code[0] != Clear(k) {
      var rest := code[1..];
      assert MidCancelAll(rest, k);
      match code[0]
      case Lock(m) => MidCancelAllHolds(held + [Hold(m, true)], rest, k);
      case Acquire(m) => MidCancelAllHolds(held + [Hold(m, true)], rest, k);
      case RLock(m) => MidCancelAllHolds(held + [Hold(m, false)], rest, k);
      case Unlock(m) => MidCancelAllHolds(held[..|held| - 1], rest, k);
      case _ => MidCancelAllHolds(held, rest, k);
    }
  }

  // ---------------------------------------------------------------- the invariant

  ghost predicate AllOrdered(s: State) {
    forall g <- s.goroutines :: Ordered(s.goroutines[g].code)
  }

  ghost predicate Distinct(list: seq<nat>) {
    forall i, j | 0 <= i < j < |list| :: list[i] != list[j]
  }

  /** C was asked to cancel and to free a registration exactly once if it is canceled, and never otherwise. */
  ghost predicate Settled(r: Registration) {
    && r.hasHandle == !r.canceled
    && r.cCancels == r.cFrees == if r.canceled then 1 else 0
  }

  ghost predicate Sound(r: Registry) {
    && (forall x <- r.entries :: x < |r.entries| && Settled(r.entries[x]))
    && (forall x <- r.list :: x in r.entries)
    && Distinct(r.list)
  }

  ghost predicate LiveListed(r: Registry) {
    forall x <- r.entries | !r.entries[x].canceled :: x in r.list
  }

  /** Only what is registered is cancelled, and only what is, or is first, cancelled is removed. */
  ghost predicate TargetsKnown(s: Shared, code: seq<Instr>) {
    && (forall k, x | Cancel(k, x) in code :: x in s.Of(k).entries)
    && (forall x | Remove(x) in code ::
          x in s.subscriptions.entries && (s.subscriptions.entries[x].canceled || Cancel(Subscriptions, x) in code))
  }

  /** A half-done cancel-all still has every live entry of the list before it. */
  ghost predicate LoopComplete(s: Shared, code: seq<Instr>) {
    forall k | MidCancelAll(code, k) ::
      forall x <- s.Of(k).list :: x in s.Of(k).entries && (s.Of(k).entries[x].canceled || Cancel(k, x) in code)
  }

  /** The call that will take a cancelled subscription out of the list. */
  ghost predicate WillDrop(code: seq<Instr>, x: nat) {
    Remove(x) in code || MidCancelAll(code, Subscriptions)
  }

  ghost predicate StaleExplained(s: State) {
    forall x <- s.shared.subscriptions.list |
      x in s.shared.subscriptions.entries && s.shared.subscriptions.entries[x].canceled ::
      exists g :: g in s.goroutines && WillDrop(s.goroutines[g].code, x)
  }

  ghost predicate Inv(s: State) {
    && AllClimb(s) && Exclusive(s) && AllOrdered(s)
    && (forall k :: Sound(s.shared.Of(k)) && LiveListed(s.shared.Of(k)))
    && (forall g <- s.goroutines :: TargetsKnown(s.shared, s.goroutines[g].code) && LoopComplete(s.shared, s.goroutines[g].code))
    && StaleExplained(s)
  }

  // ---------------------------------------------------------------- facts about registries

  lemma {:induction false} WithoutKeeps(list: seq<nat>, x: nat)
    requires Distinct(list)
    ensures Distinct(Without(list, x))
    ensures forall y :: y in Without(list, x) <==> y in list && y != x
  {
    if list != [] {
      var tail := list[1..];
      assert list == [list[0]] + tail && list[0] !in tail;
      if list[0] != x {
        WithoutKeeps(tail, x);
        assert list[0] !in Without(tail, x);
      }
    }
  }

  lemma {:induction false} RegisteredSound(r: Registry)
    requires Sound(r) && LiveListed(r)
    ensures Sound(r.Registered()) && LiveListed(r.Registered())
    ensures |r.entries| !in r.entries && |r.entries| !in r.list
  {
    var x := |r.entries|;
    assert x !in r.entries;
    assert r.Registered().entries.Keys == r.entries.Keys + {x};
  }

  lemma {:induction false} CanceledSound(r: Registry, x: nat)
    requires Sound(r) && LiveListed(r)
    ensures Sound(r.Canceled(x)) && LiveListed(r.Canceled(x))
    ensures r.Canceled(x).entries.Keys == r.entries.Keys
  {
    if x in r.entries { assert r.Canceled(x).entries.Keys == r.entries.Keys; }
  }

  lemma {:induction false} RemovedSound(r: Registry, x: nat)
    requires Sound(r) && LiveListed(r)
    requires x in r.entries && r.entries[x].canceled
    ensures Sound(r.Removed(x)) && LiveListed(r.Removed(x))
  {
    WithoutKeeps(r.list, x);
  }

  lemma {:induction false} ClearedSound(r: Registry)
    requires Sound(r) && LiveListed(r)
    requires forall x <- r.list :: r.entries[x].canceled
    ensures Sound(r.(list := [])) && LiveListed(r.(list := []))
  {}

  lemma {:induction false} RemoveComesAfterCancel(s: Shared, code: seq<Instr>)
    requires code != [] && code[0].Remove? && Ordered(code) && TargetsKnown(s, code)
    ensures code[0].id in s.subscriptions.entries && s.subscriptions.entries[code[0].id].canceled
  {
    assert Cancel(Subscriptions, code[0].id) !in code;
  }

  lemma {:induction false} ClearComesAfterCancel(s: Shared, code: seq<Instr>, k: Kind)
    requires code != [] && code[0] == Clear(k) && Ordered(code) && LoopComplete(s, code)
    ensures forall x <- s.Of(k).list :: x in s.Of(k).entries && s.Of(k).entries[x].canceled
  {
    assert MidCancelAll(code, k);
    assert forall x :: Cancel(k, x) !in code;
  }

  /** Whether an instruction changes the registrations of kind k or their list. */
  predicate Touches(i: Instr, k: Kind) {
    match i
    case New(j) => j == k
    case Cancel(j, _) => j == k
    case Remove(_) => k.Subscriptions?
    case Clear(j) => j == k
    case _ => false
  }

  lemma {:induction false} UntouchedStays(s: Shared, i: Instr, fails: bool, k: Kind)
    requires !Touches(i, k)
    ensures Effect(s, i, fails).Of(k) == s.Of(k)
  {}

  /** What happens to one list of registrations in a step. */
  lemma {:induction false} EffectSound(s: Shared, code: seq<Instr>, fails: bool, k: Kind)
    requires Sound(s.Of(k)) && LiveListed(s.Of(k))
    requires code != [] && Ordered(code) && TargetsKnown(s, code) && LoopComplete(s, code)
    ensures Sound(Effect(s, code[0], fails).Of(k)) && LiveListed(Effect(s, code[0], fails).Of(k))
  {
    if !Touches(code[0], k) {
      UntouchedStays(s, code[0], fails, k);
    } else {
      match code[0]
      case New(_) => RegisteredSound(s.Of(k));
      case Cancel(_, x) => CanceledSound(s.Of(k), x);
      case Remove(x) =>
        RemoveComesAfterCancel(s, code);
        RemovedSound(s.subscriptions, x);
      case Clear(_) =>
        ClearComesAfterCancel(s, code, k);
        ClearedSound(s.Of(k));
    }
  }

  // ---------------------------------------------------------------- what a step keeps of a goroutine's promises

  /** Instructions other than the loop come from the old code. */
  lemma {:induction false} CodeAfterMove(s: Shared, code: seq<Instr>, i: Instr)
    requires code != [] && i in Continue(s, code[0], code[1..])
    ensures i in code[1..] || i.Acquire? || i.Unlock? || i.Lock?
      || (code[0].CancelEach? && i.Cancel? && i.kind == code[0].kind && i.id in s.Of(i.kind).list)
  {
    if code[0].CancelEach? {
      LoopCovers(code[0].kind, s.Of(code[0].kind).list, 0);
    }
  }

  lemma {:induction false} EffectGrows(s: Shared, i: Instr, fails: bool, k: Kind, x: nat)
    requires Sound(s.Of(k)) && x in s.Of(k).entries
    ensures x in Effect(s, i, fails).Of(k).entries
    ensures s.Of(k).entries[x].canceled ==> Effect(s, i, fails).Of(k).entries[x].canceled
    ensures i == Cancel(k, x) ==> Effect(s, i, fails).Of(k).entries[x].canceled
  {}

  /** A goroutine that does not move keeps its targets. */
  lemma {:induction false} TargetsKnownElsewhere(s: Shared, i: Instr, fails: bool, code: seq<Instr>)
    requires (forall k :: Sound(s.Of(k))) && TargetsKnown(s, code)
    ensures TargetsKnown(Effect(s, i, fails), code)
  {
    forall k, x | Cancel(k, x) in code ensures x in Effect(s, i, fails).Of(k).entries { EffectGrows(s, i, fails, k, x); }
    forall x | Remove(x) in code
      ensures var es := Effect(s, i, fails).subscriptions.entries; x in es && (es[x].canceled || Cancel(Subscriptions, x) in code)
    {
      EffectGrows(s, i, fails, Subscriptions, x);
    }
  }

  lemma {:induction false} TargetsKnownAfterMove(s: Shared, code: seq<Instr>, fails: bool)
    requires (forall k :: Sound(s.Of(k))) && code != [] && Ordered(code) && TargetsKnown(s, code)
    ensures TargetsKnown(Effect(s, code[0], fails), Continue(s, code[0], code[1..]))
  {
    var t, next := Effect(s, code[0], fails), Continue(s, code[0], code[1..]);
    forall k, x | Cancel(k, x) in next ensures x in t.Of(k).entries {
      CodeAfterMove(s, code, Cancel(k, x));
      EffectGrows(s, code[0], fails, k, x);
    }
    forall x | Remove(x) in next
      ensures x in t.subscriptions.entries && (t.subscriptions.entries[x].canceled || Cancel(Subscriptions, x) in next)
    {
      CodeAfterMove(s, code, Remove(x));
      EffectGrows(s, code[0], fails, Subscriptions, x);
    }
  }

  /** Every change of a list needs the lock of that list. */
  lemma {:induction false} ListNeedsLock(s: Shared, me: Goroutine, fails: bool, k: Kind)
    requires me.code != [] && Climbs(me.held, me.code) && !Holds(me, ListMu(k), true)
    ensures Effect(s, me.code[0], fails).Of(k).list == s.Of(k).list
  {
    if !me.code[0].Lock? && !me.code[0].Acquire? && !me.code[0].RLock? && !me.code[0].Unlock? &&
       !me.code[0].ReturnIfClosed? && !me.code[0].ReturnIfHandleFreed? {
      assert Permitted(me.held, me.code[0]);
    }
  }

  /** A half-done cancel-all keeps its list: its goroutine holds the lock that every change of the list needs. */
  lemma {:induction false} LoopCompleteElsewhere(s: Shared, me: Goroutine, fails: bool, other: Goroutine)
    requires (forall k :: Sound(s.Of(k))) && me.code != [] && Climbs(me.held, me.code)
    requires Climbs(other.held, other.code) && Ordered(other.code) && LoopComplete(s, other.code)
    requires forall m | Holds(other, m, true) :: !Holds(me, m, true)
    ensures LoopComplete(Effect(s, me.code[0], fails), other.code)
  {
    var t := Effect(s, me.code[0], fails);
    forall k, x | MidCancelAll(other.code, k) && x in t.Of(k).list
      ensures x in t.Of(k).entries && (t.Of(k).entries[x].canceled || Cancel(k, x) in other.code)
    {
      MidCancelAllHolds(other.held, other.code, k);
      assert Holds(other, ListMu(k), true);
      ListNeedsLock(s, me, fails, k);
      EffectGrows(s, me.code[0], fails, k, x);
    }
  }

  /** A goroutine half way through a cancel-all was so before the step, or has just started on the whole list. */
  lemma {:induction false} MidCancelAllBefore(s: Shared, code: seq<Instr>, k: Kind)
    requires code != [] && MidCancelAll(Continue(s, code[0], code[1..]), k)
    ensures code[0] == CancelEach(k) || MidCancelAll(code, k)
  {
    CodeAfterMove(s, code, Clear(k));
  }

  lemma {:induction false} ListShrinks(s: Shared, code: seq<Instr>, fails: bool, k: Kind, x: nat)
    requires Sound(s.Of(k)) && code != [] && Ordered(code) && MidCancelAll(code, k)
    requires x in Effect(s, code[0], fails).Of(k).list
    ensures x in s.Of(k).list
  {
    match code[0]
    case New(j) => NoNewInCancelAll(code, k);
    case Remove(y) => if k.Subscriptions? { WithoutKeeps(s.subscriptions.list, y); }
    case _ =>
  }

  lemma {:induction false} NoNewInCancelAll(code: seq<Instr>, k: Kind)
    requires code != [] && Ordered(code) && MidCancelAll(code, k)
    ensures code[0] != New(k)
  {
    assert code[0] == Clear(k) || Clear(k) in code[1..];
  }

  lemma {:induction false} LoopEntryAfterMove(s: Shared, code: seq<Instr>, fails: bool, k: Kind, x: nat)
    requires Sound(s.Of(k)) && code != [] && Ordered(code) && LoopComplete(s, code)
    requires MidCancelAll(Continue(s, code[0], code[1..]), k) && x in Effect(s, code[0], fails).Of(k).list
    ensures var t := Effect(s, code[0], fails);
            x in t.Of(k).entries && (t.Of(k).entries[x].canceled || Cancel(k, x) in Continue(s, code[0], code[1..]))
  {
    MidCancelAllBefore(s, code, k);
    if code[0] == CancelEach(k) {
      LoopCovers(k, s.Of(k).list, x);
      EffectGrows(s, code[0], fails, k, x);
    } else {
      ListShrinks(s, code, fails, k, x);
      EffectGrows(s, code[0], fails, k, x);
      if code[0] != Cancel(k, x) && Cancel(k, x) in code {
        assert Cancel(k, x) in code[1..];
      }
    }
  }

  lemma {:induction false} LoopCompleteAfterMove(s: Shared, code: seq<Instr>, fails: bool)
    requires (forall k :: Sound(s.Of(k))) && code != [] && Ordered(code) && LoopComplete(s, code)
    ensures LoopComplete(Effect(s, code[0], fails), Continue(s, code[0], code[1..]))
  {
    var t, next := Effect(s, code[0], fails), Continue(s, code[0], code[1..]);
    forall k, x | MidCancelAll(next, k) && x in t.Of(k).list
      ensures x in t.Of(k).entries && (t.Of(k).entries[x].canceled || Cancel(k, x) in next)
    {
      LoopEntryAfterMove(s, code, fails, k, x);
    }
  }

  /** Who was going to drop a cancelled entry still is, unless the entry has just been dropped. */
  lemma {:induction false} WillDropAfterMove(s: Shared, code: seq<Instr>, fails: bool, x: nat)
    requires Sound(s.subscriptions) && code != [] && Ordered(code) && WillDrop(code, x)
    requires x in Effect(s, code[0], fails).subscriptions.list
    ensures WillDrop(Continue(s, code[0], code[1..]), x)
  {
    var next := Continue(s, code[0], code[1..]);
    if Remove(x) in code {
      if code[0] == Remove(x) {
        WithoutKeeps(s.subscriptions.list, x);
      } else {
        assert Remove(x) in code[1..];
        assert Remove(x) in next;
      }
    } else {
      assert Clear(Subscriptions) in code[1..];
      MidCancelAllKept(s, code);
    }
  }

  lemma {:induction false} MidCancelAllKept(s: Shared, code: seq<Instr>)
    requires code != [] && Ordered(code) && MidCancelAll(code, Subscriptions) && code[0] != Clear(Subscriptions)
    ensures MidCancelAll(Continue(s, code[0], code[1..]), Subscriptions)
  {
    var rest := code[1..];
    assert MidCancelAll(rest, Subscriptions);
    match code[0]
    case CancelEach(k) => LoopCovers(k, s.Of(k).list, 0);
    case _ =>
  }

  /** The step that cancels a subscription belongs to the call that will drop it. */
  lemma {:induction false} CancelWillDrop(s: Shared, code: seq<Instr>, x: nat)
    requires code != [] && Ordered(code) && code[0] == Cancel(Subscriptions, x)
    ensures WillDrop(Continue(s, code[0], code[1..]), x)
  {}

  lemma {:induction false} StaleExplainedAfterMove(s: State, g: nat, fails: bool)
    requires Inv(s) && CanMove(s, g)
    ensures StaleExplained(Moved(s, g, fails))
  {
    var t := Moved(s, g, fails);
    var code := s.goroutines[g].code;
    var r, r' := s.shared.subscriptions, t.shared.subscriptions;
    assert Sound(s.shared.Of(Subscriptions));
    forall x <- r'.list | x in r'.entries && r'.entries[x].canceled
      ensures exists h :: h in t.goroutines && WillDrop(t.goroutines[h].code, x)
    {
      if code[0] == Cancel(Subscriptions, x) {
        CancelWillDrop(s.shared, code, x);
        assert WillDrop(t.goroutines[g].code, x);
      } else {
        CanceledBefore(s.shared, code, fails, x);
        var h :| h in s.goroutines && WillDrop(s.goroutines[h].code, x);
        if h == g { WillDropAfterMove(s.shared, code, fails, x); }
        assert WillDrop(t.goroutines[h].code, x);
      }
    }
  }

  /** Nothing but its own Cancel instruction cancels a listed subscription. */
  lemma {:induction false} CanceledBefore(s: Shared, code: seq<Instr>, fails: bool, x: nat)
    requires Sound(s.subscriptions) && code != [] && code[0] != Cancel(Subscriptions, x)
    requires var r := Effect(s, code[0], fails).subscriptions; x in r.list && x in r.entries && r.entries[x].canceled
    ensures x in s.subscriptions.list && x in s.subscriptions.entries && s.subscriptions.entries[x].canceled
  {
    if code[0].Remove? { WithoutKeeps(s.subscriptions.list, code[0].id); }
  }

  // ---------------------------------------------------------------- every step keeps the invariant

  lemma {:induction false} MoveKeepsInv(s: State, g: nat, fails: bool)
    requires Inv(s) && CanMove(s, g)
    ensures Inv(Moved(s, g, fails))
  {
    var e, t := Move(g, fails), Moved(s, g, fails);
    var me := s.goroutines[g];
    ClimbsKept(s, e);
    ExclusionKept(s, e);
    MoveOrdered(s.shared, me.code);
    StaleExplainedAfterMove(s, g, fails);
    forall k ensures Sound(t.shared.Of(k)) && LiveListed(t.shared.Of(k)) { EffectSound(s.shared, me.code, fails, k); }
    forall h <- t.goroutines
      ensures TargetsKnown(t.shared, t.goroutines[h].code) && LoopComplete(t.shared, t.goroutines[h].code)
    {
      if h == g {
        TargetsKnownAfterMove(s.shared, me.code, fails);
        LoopCompleteAfterMove(s.shared, me.code, fails);
      } else {
        TargetsKnownElsewhere(s.shared, me.code[0], fails, s.goroutines[h].code);
        LoopCompleteElsewhere(s.shared, me, fails, s.goroutines[h]);
      }
    }
  }

  lemma {:induction false} CloseContents()
    ensures forall i <- Code(CloseCall) :: !i.Cancel? && !i.Remove?
    ensures forall k :: !MidCancelAll(Code(CloseCall), k)
  {
    CloseCode();
    CloseEndContents();
    CancelAllContents(Observers);
    CancelAllContents(Subscriptions);
    CloseBodyLosesNothing();
    forall k: Kind
      ensures !MidCancelAll(Code(CloseCall), k)
    {
      assert !MidCancelAll(CloseBody(), k);
    }
  }

  /** A call starts with no removal or cancel-all half done. */
  lemma {:induction false} CallContents(call: Call)
    ensures forall i <- Code(call) | i.Cancel? :: call == CancelCall(i.kind, i.id)
    ensures forall i <- Code(call) | i.Remove? :: call == CancelCall(Subscriptions, i.id) && Cancel(Subscriptions, i.id) in Code(call)
    ensures forall k :: !MidCancelAll(Code(call), k)
  {
    match call
    case CloseCall => CloseContents();
    case CancelCall(Subscriptions, x) => assert Code(call)[1] == Cancel(Subscriptions, x);
    case _ =>
  }

  lemma {:induction false} AddKeepsStaleExplained(s: State, g: nat, code: seq<Instr>)
    requires StaleExplained(s) && g !in s.goroutines
    ensures StaleExplained(s.(goroutines := s.goroutines[g := Goroutine([], code)]))
  {
    var t := s.(goroutines := s.goroutines[g := Goroutine([], code)]);
    forall x <- t.shared.subscriptions.list |
      x in t.shared.subscriptions.entries && t.shared.subscriptions.entries[x].canceled
      ensures exists h :: h in t.goroutines && WillDrop(t.goroutines[h].code, x)
    {
      var h :| h in s.goroutines && WillDrop(s.goroutines[h].code, x);
      assert WillDrop(t.goroutines[h].code, x);
    }
  }

  lemma {:induction false} CallTargets(s: Shared, call: Call)
    requires Callable(s, call)
    ensures TargetsKnown(s, Code(call)) && LoopComplete(s, Code(call))
  {
    CallContents(call);
  }

  lemma {:induction false} SpawnKeepsInv(s: State, g: nat, call: Call)
    requires Inv(s) && Next(s, Spawn(g, call)).Some?
    ensures Inv(Next(s, Spawn(g, call)).value)
  {
    ClimbsKept(s, Spawn(g, call));
    ExclusionKept(s, Spawn(g, call));
    CallsOrdered(call);
    CallTargets(s.shared, call);
    AddKeepsStaleExplained(s, g, Code(call));
  }

  lemma {:induction false} StepKeepsInv(s: State, e: Event)
    requires Inv(s) && Next(s, e).Some?
    ensures Inv(Next(s, e).value)
  {
    match e
    case Spawn(g, call) => SpawnKeepsInv(s, g, call);
    case Move(g, fails) => MoveKeepsInv(s, g, fails);
  }

  lemma {:induction false} InvHolds(events: seq<Event>)
    requires Run(OPENED, Next, events).Some?
    ensures Inv(Run(OPENED, Next, events).value)
  {
    forall s, e | Inv(s) && Next(s, e).Some? ensures Inv(Next(s, e).value) { StepKeepsInv(s, e); }
    Invariance(OPENED, Next, Inv, events);
  }

  // ---------------------------------------------------------------- what a caller can rely on

  /**
   In every reachable state: a list has no repeats; every registered uncancelled subscription
   or observer is in its list; a cancelled subscription is in the list only while the call that
   takes it out, or a cancel-all, is under way.
   */
  lemma {:induction false} ListAgreesWithLiveSet(events: seq<Event>)
    requires Run(OPENED, Next, events).Some?
    ensures var s := Run(OPENED, Next, events).value;
      && (forall k :: Distinct(s.shared.Of(k).list))
      && (forall k, x | x in s.shared.Of(k).entries && !s.shared.Of(k).entries[x].canceled :: x in s.shared.Of(k).list)
      && (forall x <- s.shared.subscriptions.list ::
            x in s.shared.subscriptions.entries &&
            (s.shared.subscriptions.entries[x].canceled ==>
              exists g :: g in s.goroutines && WillDrop(s.goroutines[g].code, x)))
  {
    InvHolds(events);
    var s := Run(OPENED, Next, events).value;
    assert Sound(s.shared.Of(Subscriptions));
    forall k, x | x in s.shared.Of(k).entries && !s.shared.Of(k).entries[x].canceled
      ensures x in s.shared.Of(k).list
    {
      assert LiveListed(s.shared.Of(k));
    }
  }

  /** Once every call has returned, Subscriptions() is exactly the set of uncancelled subscriptions. */
  lemma {:induction false} ListIsLiveSetAtRest(events: seq<Event>, x: nat)
    requires Run(OPENED, Next, events).Some?
    requires var gs := Run(OPENED, Next, events).value.goroutines; forall g <- gs :: gs[g].code == []
    ensures var r := Run(OPENED, Next, events).value.shared.subscriptions;
            x in r.list <==> x in r.entries && !r.entries[x].canceled
  {
    ListAgreesWithLiveSet(events);
    var s := Run(OPENED, Next, events).value;
    assert s.shared.Of(Subscriptions) == s.shared.subscriptions;
  }

  /** C is asked to cancel and to free a subscription or observer once if it is cancelled, however often and by whomever; otherwise never. */
  lemma {:induction false} CancelledOnce(events: seq<Event>, k: Kind, x: nat)
    requires Run(OPENED, Next, events).Some?
    requires x in Run(OPENED, Next, events).value.shared.Of(k).entries
    ensures var r := Run(OPENED, Next, events).value.shared.Of(k).entries[x];
            r.cCancels == r.cFrees && r.cFrees == (if r.canceled then 1 else 0) && r.hasHandle == !r.canceled
  {
    InvHolds(events);
    assert Sound(Run(OPENED, Next, events).value.shared.Of(k));
  }
}
