/**
 Runs of a labelled transition system. A system is a start state and a partial step function:
 `step(s, e)` is `None` when event `e` cannot happen in state `s`. A nondeterministic
 choice (which goroutine moves, what C answers) is part of the event.
 */
module Runs {
  import opened Wrappers

  /** The state after `events`, or `None` when one of them could not happen. */
  function Run<S, E>(start: S, step: (S, E) -> Option<S>, events: seq<E>): Option<S> {
    if events == [] then Some(start)
    else
      match Run(start, step, events[..|events| - 1])
      case None => None
      case Some(s) => step(s, events[|events| - 1])
  }

  /** What holds at the start and is kept by every step holds after every run. */
  lemma {:induction false} Invariance<S(!new), E(!new)>(start: S, step: (S, E) -> Option<S>, inv: S -> bool, events: seq<E>)
    requires inv(start)
    requires forall s, e :: inv(s) && step(s, e).Some? ==> inv(step(s, e).value)
    requires Run(start, step, events).Some?
    ensures inv(Run(start, step, events).value)
  {
    if events != [] {
      Invariance(start, step, inv, events[..|events| - 1]);
    }
  }

  lemma {:induction false} Extend<S, E>(start: S, step: (S, E) -> Option<S>, events: seq<E>, s: S, e: E)
    requires Run(start, step, events) == Some(s)
    ensures Run(start, step, events + [e]) == step(s, e)
  {
    assert (events + [e])[..|events + [e]| - 1] == events;
  }

  /** A run can be cut anywhere: its first half is a run, and the second half runs on from there. */
  lemma {:induction false} Split<S, E>(start: S, step: (S, E) -> Option<S>, first: seq<E>, second: seq<E>)
    ensures Run(start, step, first + second) ==
            match Run(start, step, first)
            case None => None
            case Some(mid) => Run(mid, step, second)
  {
    if second == [] {
      assert first + second == first;
    } else {
      var last := |second| - 1;
      assert (first + second)[..|first + second| - 1] == first + second[..last];
      Split(start, step, first, second[..last]);
    }
  }

  /** A run can be built from its front. */
  lemma {:induction false} FirstThenRest<S, E>(start: S, step: (S, E) -> Option<S>, e: E, s: S, rest: seq<E>)
    requires step(start, e) == Some(s)
    ensures Run(start, step, [e] + rest) == Run(s, step, rest)
  {
    Extend(start, step, [], start, e);
    assert [] + [e] == [e];
    Split(start, step, [e], rest);
  }
}
