/**
 Every call returns: from any reachable state, a schedule without any new call comes to an end,
 and where nobody can move no goroutine has anything left to do. Cancel-all loops grow a
 goroutine's code, so what shrinks is the number of loops still to start, and then the work left.
 */
module Draining {
  import opened Wrappers
  import opened Runs
  import opened Lifecycle
  import opened LockDiscipline

  function Loops(code: seq<Instr>): nat {
    if code == [] then 0 else (if code[0].CancelEach? then 1 else 0) + Loops(code[1..])
  }

  /** A Lock is two steps; everything else is one. */
  function Work(code: seq<Instr>): nat {
    if code == [] then 0 else (if code[0].Lock? then 2 else 1) + Work(code[1..])
  }

  ghost function Sum(m: map<nat, nat>): nat {
    if m == map[] then 0
    else
      var k :| k in m;
      m[k] + Sum(m - {k})
  }

  lemma {:induction false} SumTakes(m: map<nat, nat>, k: nat)
    requires k in m
    ensures Sum(m) == m[k] + Sum(m - {k})
    decreases m
  {
    var j :| j in m && Sum(m) == m[j] + Sum(m - {j});
    if j != k {
      SumTakes(m - {j}, k);
      SumTakes(m - {k}, j);
      assert m - {j} - {k} == m - {k} - {j};
    }
  }

  lemma {:induction false} SumUpdates(m: map<nat, nat>, k: nat, v: nat)
    requires k in m
    ensures Sum(m[k := v]) == Sum(m) - m[k] + v
  {
    SumTakes(m, k);
    SumTakes(m[k := v], k);
    assert m[k := v] - {k} == m - {k};
  }

  function LoopsLeft(s: State): map<nat, nat> { map g | g in s.goroutines :: Loops(s.goroutines[g].code) }
  function WorkLeft(s: State): map<nat, nat> { map g | g in s.goroutines :: Work(s.goroutines[g].code) }

  lemma {:induction false} Appended(a: seq<Instr>, b: seq<Instr>)
    ensures Loops(a + b) == Loops(a) + Loops(b) && Work(a + b) == Work(a) + Work(b)
  {
    if a == [] {
      assert a + b == b;
    } else {
      Appended(a[1..], b);
      assert (a + b)[1..] == a[1..] + b;
    }
  }

  lemma {:induction false} LoopHasNoLoops(k: Kind, list: seq<nat>)
    ensures Loops(CancelLoop(k, list)) == 0
  {
    if list != [] {
      LoopHasNoLoops(k, list[1..]);
      var take, body, release := [Lock(EntryMu(k, list[0]))], [Cancel(k, list[0])], [Unlock(EntryMu(k, list[0]))];
      assert take[1..] == [] && body[1..] == [] && release[1..] == [];
      Appended(take, body);
      Appended(take + body, release);
      Appended(take + body + release, CancelLoop(k, list[1..]));
    }
  }

  /** One step of a goroutine starts one of its loops, or leaves it less to do. */
  lemma {:induction false} MoveShrinks(s: Shared, g: Goroutine)
    requires g.code != [] && Climbs(g.held, g.code)
    ensures var next := Continue(s, g.code[0], g.code[1..]);
            Loops(next) < Loops(g.code) || (Loops(next) == Loops(g.code) && Work(next) < Work(g.code))
  {
    var rest := g.code[1..];
    match g.code[0]
    case Lock(m) => Appended([Acquire(m)], rest); assert [Acquire(m)][1..] == [];
    case CancelEach(k) => LoopHasNoLoops(k, s.Of(k).list); Appended(CancelLoop(k, s.Of(k).list), rest);
    case ReturnIfClosed(m) => assert rest != []; assert [Unlock(m)][1..] == [];
    case ReturnIfHandleFreed(m) => assert rest != []; assert [Unlock(m)][1..] == [];
    case _ =>
  }

  /** What is left to do, as a pair that shrinks lexicographically. */
  lemma {:induction false} StateShrinks(s: State, g: nat, fails: bool)
    requires AllClimb(s) && CanMove(s, g)
    ensures var t := Moved(s, g, fails);
            Sum(LoopsLeft(t)) < Sum(LoopsLeft(s))
            || (Sum(LoopsLeft(t)) == Sum(LoopsLeft(s)) && Sum(WorkLeft(t)) < Sum(WorkLeft(s)))
  {
    var t := Moved(s, g, fails);
    var next := t.goroutines[g].code;
    MoveShrinks(s.shared, s.goroutines[g]);
    assert LoopsLeft(t) == LoopsLeft(s)[g := Loops(next)];
    assert WorkLeft(t) == WorkLeft(s)[g := Work(next)];
    SumUpdates(LoopsLeft(s), g, Loops(next));
    SumUpdates(WorkLeft(s), g, Work(next));
  }

  lemma {:induction false} CanFinish(s: State) returns (moves: seq<Event>)
    requires AllClimb(s)
    ensures forall e <- moves :: e.Move?
    ensures Run(s, Next, moves).Some?
    ensures forall g <- Run(s, Next, moves).value.goroutines :: Run(s, Next, moves).value.goroutines[g].code == []
    decreases Sum(LoopsLeft(s)), Sum(WorkLeft(s))
  {
    if forall g <- s.goroutines :: s.goroutines[g].code == [] {
      return [];
    }
    SomebodyMoves(s);
    var g :| CanMove(s, g);
    ClimbsKept(s, Move(g, false));
    StateShrinks(s, g, false);
    var rest := CanFinish(Moved(s, g, false));
    FirstThenRest(s, Next, Move(g, false), Moved(s, g, false), rest);
    moves := [Move(g, false)] + rest;
  }

  /** Moves i up to n of a schedule. */
  function Stretch(schedule: nat -> Event, i: nat, n: nat): seq<Event>
    requires i <= n
  {
    seq(n - i, j requires 0 <= j => schedule(i + j))
  }

  lemma {:induction false} FirstOfStretch(s: State, t: State, schedule: nat -> Event, i: nat, n: nat)
    requires i < n && Next(s, schedule(i)) == Some(t)
    ensures Run(s, Next, Stretch(schedule, i, n)) == Run(t, Next, Stretch(schedule, i + 1, n))
  {
    assert Stretch(schedule, i, n) == [schedule(i)] + Stretch(schedule, i + 1, n);
    FirstThenRest(s, Next, schedule(i), t, Stretch(schedule, i + 1, n));
  }

  lemma {:induction false} EndsFrom(s: State, schedule: nat -> Event, i: nat) returns (n: nat)
    requires AllClimb(s) && forall j :: schedule(j).Move?
    ensures i <= n && Run(s, Next, Stretch(schedule, i, n)).Some?
    ensures Next(Run(s, Next, Stretch(schedule, i, n)).value, schedule(n)).None?
    decreases Sum(LoopsLeft(s)), Sum(WorkLeft(s))
  {
    var e := schedule(i);
    if Next(s, e).None? {
      n := i;
    } else {
      ClimbsKept(s, e);
      StateShrinks(s, e.goroutine, e.fails);
      var t := Next(s, e).value;
      n := EndsFrom(t, schedule, i + 1);
      FirstOfStretch(s, t, schedule, i, n);
    }
  }

  /**
   Whatever C answers, no schedule of moves goes on for ever: from every reachable state it comes
   to a move that is impossible. Either somebody else could have moved then, or all calls have
   returned, so a schedule that picks a possible move whenever there is one finishes all calls.
   */
  lemma {:induction false} EveryScheduleEnds(events: seq<Event>, schedule: nat -> Event) returns (n: nat)
    requires Run(OPENED, Next, events).Some? && forall i :: schedule(i).Move?
    ensures Run(OPENED, Next, events + Stretch(schedule, 0, n)).Some?
    ensures var s := Run(OPENED, Next, events + Stretch(schedule, 0, n)).value;
            && Next(s, schedule(n)).None?
            && ((exists g :: CanMove(s, g)) || forall g <- s.goroutines :: s.goroutines[g].code == [])
  {
    AlwaysClimbs(events);
    n := EndsFrom(Run(OPENED, Next, events).value, schedule, 0);
    Split(OPENED, Next, events, Stretch(schedule, 0, n));
    AlwaysClimbs(events + Stretch(schedule, 0, n));
    var s := Run(OPENED, Next, events + Stretch(schedule, 0, n)).value;
    if g :| g in s.goroutines && s.goroutines[g].code != [] { SomebodyMoves(s); }
  }

  lemma {:induction false} AlwaysClimbs(events: seq<Event>)
    requires Run(OPENED, Next, events).Some?
    ensures AllClimb(Run(OPENED, Next, events).value)
  {
    forall s, e | AllClimb(s) && Next(s, e).Some? ensures AllClimb(Next(s, e).value) { ClimbsKept(s, e); }
    Invariance(OPENED, Next, AllClimb, events);
  }

  /** From every reachable state, all calls under way can be brought to an end without any new call. */
  lemma {:induction false} EveryCallCanReturn(events: seq<Event>) returns (moves: seq<Event>)
    requires Run(OPENED, Next, events).Some?
    ensures forall e <- moves :: e.Move?
    ensures Run(OPENED, Next, events + moves).Some?
    ensures var gs := Run(OPENED, Next, events + moves).value.goroutines; forall g <- gs :: gs[g].code == []
  {
    AlwaysClimbs(events);
    moves := CanFinish(Run(OPENED, Next, events).value);
    Split(OPENED, Next, events, moves);
  }
}
