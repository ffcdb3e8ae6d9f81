/**
 What Ditto.Close promises about subscriptions and observers: everything registered before any
 Close got past its cancel-alls is cancelled once the instance is closed.
 */
module Closing {
  import opened Runs
  import opened Registrations
  import opened Lifecycle
  import opened LockDiscipline
  import opened RegistryAgreement

  ghost predicate IsCanceled(r: Registry, x: nat) {
    x in r.entries && r.entries[x].canceled
  }

  /** Every Close that has yet to set `closed` has the cancel-all of kind k ahead of it. */
  ghost predicate CancelAllAhead(s: State, k: Kind) {
    forall g <- s.goroutines | SetClosed in s.goroutines[g].code :: Clear(k) in s.goroutines[g].code
  }

  /** The registration x of kind k is cancelled before any Close completes. */
  ghost predicate CanceledBeforeClosed(s: State, k: Kind, x: nat) {
    && x in s.shared.Of(k).entries
    && (IsCanceled(s.shared.Of(k), x) || (!s.shared.closed && CancelAllAhead(s, k)))
  }

  lemma {:induction false} CallsPromise(call: Call, k: Kind)
    ensures SetClosed in Code(call) ==> Clear(k) in Code(call)
  {
    if call.CloseCall? {
      CloseCode();
      assert CancelAll(k)[2] == Clear(k);
      assert Clear(k) in CloseBody();
    }
  }

  lemma {:induction false} SpawnKeepsPromise(s: State, g: nat, code: seq<Instr>, k: Kind, x: nat)
    requires CanceledBeforeClosed(s, k, x) && g !in s.goroutines
    requires SetClosed in code ==> Clear(k) in code
    ensures CanceledBeforeClosed(s.(goroutines := s.goroutines[g := Goroutine([], code)]), k, x)
  {}

  /** When a list is cleared, nothing of that kind is live any more. */
  lemma {:induction false} ClearingFindsAllCanceled(s: State, g: nat, k: Kind, x: nat)
    requires Inv(s) && CanMove(s, g) && s.goroutines[g].code[0] == Clear(k)
    requires x in s.shared.Of(k).entries
    ensures IsCanceled(s.shared.Of(k), x)
  {
    ClearComesAfterCancel(s.shared, s.goroutines[g].code, k);
    assert LiveListed(s.shared.Of(k));
  }

  lemma {:induction false} MoveKeepsAhead(s: State, g: nat, fails: bool, k: Kind)
    requires Inv(s) && CanMove(s, g) && CancelAllAhead(s, k)
    requires s.goroutines[g].code[0] != Clear(k)
    ensures CancelAllAhead(Moved(s, g, fails), k)
  {
    var t := Moved(s, g, fails);
    var code := s.goroutines[g].code;
    forall h <- t.goroutines | SetClosed in t.goroutines[h].code
      ensures Clear(k) in t.goroutines[h].code
    {
      if h == g {
        CodeAfterMove(s.shared, code, SetClosed);
        assert Clear(k) in code[1..];
      }
    }
  }

  lemma {:induction false} ClearsBeforeClosing(code: seq<Instr>, k: Kind)
    requires code != [] && Ordered(code)
    ensures code[0] == SetClosed ==> Clear(k) !in code
  {
    if code[0] == SetClosed { assert Clear(k) !in code[1..]; }
  }

  lemma {:induction false} MoveKeepsPromise(s: State, g: nat, fails: bool, k: Kind, x: nat)
    requires Inv(s) && CanMove(s, g) && CanceledBeforeClosed(s, k, x)
    ensures CanceledBeforeClosed(Moved(s, g, fails), k, x)
  {
    var code := s.goroutines[g].code;
    EffectGrows(s.shared, code[0], fails, k, x);
    if !IsCanceled(s.shared.Of(k), x) {
      if code[0] == Clear(k) {
        ClearingFindsAllCanceled(s, g, k, x);
      } else {
        MoveKeepsAhead(s, g, fails, k);
        ClearsBeforeClosing(code, k);
        assert code[0] == SetClosed ==> SetClosed in code;
      }
    }
  }

  ghost predicate InvAndPromise(s: State, k: Kind, x: nat) { Inv(s) && CanceledBeforeClosed(s, k, x) }

  lemma {:induction false} StepKeepsPromise(s: State, e: Event, k: Kind, x: nat)
    requires InvAndPromise(s, k, x) && Next(s, e).Some?
    ensures InvAndPromise(Next(s, e).value, k, x)
  {
    StepKeepsInv(s, e);
    match e
    case Spawn(g, call) =>
      CallsPromise(call, k);
      SpawnKeepsPromise(s, g, Code(call), k, x);
    case Move(g, fails) => MoveKeepsPromise(s, g, fails, k, x);
  }

  /**
   Whatever was registered at a moment when no Close had got past its cancel-alls is
   cancelled in every later state in which the instance is closed.
   */
  lemma {:induction false} CloseCancelsEverything(before: seq<Event>, after: seq<Event>, k: Kind, x: nat)
    requires Run(OPENED, Next, before).Some? && Run(OPENED, Next, before + after).Some?
    requires var s := Run(OPENED, Next, before).value; !s.shared.closed && CancelAllAhead(s, k) && x in s.shared.Of(k).entries
    requires Run(OPENED, Next, before + after).value.shared.closed
    ensures IsCanceled(Run(OPENED, Next, before + after).value.shared.Of(k), x)
  {
    var s := Run(OPENED, Next, before).value;
    InvHolds(before);
    Split(OPENED, Next, before, after);
    forall u, e | InvAndPromise(u, k, x) && Next(u, e).Some?
      ensures InvAndPromise(Next(u, e).value, k, x)
    {
      StepKeepsPromise(u, e, k, x);
    }
    Invariance(s, Next, u => InvAndPromise(u, k, x), after);
  }
}
