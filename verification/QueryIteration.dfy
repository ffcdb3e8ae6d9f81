/**
 Iterating over a query result. The loop body is arbitrary: what it does at a visit may depend
 on everything it has been shown so far, and it may leave the loop, close the item it was given,
 or close the result under the iterator. Every item that is opened along the way is an object
 that C must get back.
 */
module QueryIteration {
  import opened Wrappers
  import opened Runs

  /** What happens to items and results, in order. */
  datatype Event =
    | Opened(i: nat)             // C hands out item i
    | Yielded(i: nat)            // the loop body is given item i
    | FreedItem(i: nat)
    | FreedResult
    | Diffed(items: seq<nat>)    // C's differ reads these items

  /** What the loop body does at one visit. */
  datatype Reaction = Reaction(goOn: bool, closesItem: bool, closesResult: bool)

  /** The body's reaction to the last index it was shown, given all of them. */
  type Consumer = seq<nat> -> Reaction

  /** The body of Values, as far as the items can tell. */
  const APPENDING: Consumer := (seen: seq<nat>) => Reaction(true, false, false)

  // ---------------------------------------------------------------- what an iteration should visit

  /** The indices below n whose item C can retrieve. */
  function Retrievable(n: nat, ok: nat -> bool): seq<nat> {
    if n == 0 then []
    else if ok(n - 1) then Retrievable(n - 1, ok) + [n - 1]
    else Retrievable(n - 1, ok)
  }

  lemma {:induction false} RetrievableAscends(n: nat, ok: nat -> bool)
    ensures forall i :: i in Retrievable(n, ok) <==> 0 <= i < n && ok(i)
    ensures forall j, k | 0 <= j < k < |Retrievable(n, ok)| :: Retrievable(n, ok)[j] < Retrievable(n, ok)[k]
  {
    if n > 0 {
      RetrievableAscends(n - 1, ok);
      var before := Retrievable(n - 1, ok);
      forall j | 0 <= j < |before| ensures before[j] < n - 1 { assert before[j] in before; }
    }
  }

  lemma {:induction false} NextRetrievable(i: nat, n: nat, ok: nat -> bool)
    requires i < n && ok(i)
    ensures Retrievable(i, ok) + [i] <= Retrievable(n, ok)
  {
    if i + 1 < n { NextRetrievable(i, n - 1, ok); }
  }

  /** Whether the visit to the last of `seen` is the last one. */
  predicate Ends(c: Consumer, seen: seq<nat>) {
    !c(seen).goOn || c(seen).closesResult
  }

  /** `seen` goes through `all` from its start, and stops where the body makes it stop or at the end of `all`. */
  ghost predicate IsVisit(all: seq<nat>, c: Consumer, seen: seq<nat>) {
    && seen <= all
    && (forall k | 0 < k < |seen| :: !Ends(c, seen[..k]))
    && (seen == all || (seen != [] && Ends(c, seen)))
  }

  /** The indices an iteration shows are determined by the result and the body. */
  lemma {:induction false} VisitIsUnique(all: seq<nat>, c: Consumer, seen: seq<nat>, seen': seq<nat>)
    requires IsVisit(all, c, seen) && IsVisit(all, c, seen')
    ensures seen == seen'
  {
    NotShorter(all, c, seen, seen');
    NotShorter(all, c, seen', seen);
    assert seen == all[..|seen|];
  }

  lemma {:induction false} NotShorter(all: seq<nat>, c: Consumer, a: seq<nat>, b: seq<nat>)
    requires IsVisit(all, c, a) && IsVisit(all, c, b)
    ensures |a| >= |b|
  {
    var start := b[..if |a| < |b| then |a| else |b|];
    assert |a| < |b| ==> a == start;
  }

  /** What holds in the middle of an iteration. */
  ghost predicate SoFar(all: seq<nat>, c: Consumer, seen: seq<nat>) {
    && seen <= all
    && (forall k | 0 < k < |seen| :: !Ends(c, seen[..k]))
    && (seen != [] ==> c(seen).goOn)
  }

  lemma {:induction false} GoingOn(all: seq<nat>, c: Consumer, before: seq<nat>, i: nat)
    requires SoFar(all, c, before) && before + [i] <= all
    requires before != [] ==> !c(before).closesResult
    ensures c(before + [i]).goOn ==> SoFar(all, c, before + [i])
    ensures !c(before + [i]).goOn ==> IsVisit(all, c, before + [i])
  {
    forall k | 0 < k < |before + [i]| ensures !Ends(c, (before + [i])[..k]) {
      assert (before + [i])[..k] == if k == |before| then before else before[..k];
    }
  }

  lemma {:induction false} Finished(all: seq<nat>, c: Consumer, seen: seq<nat>)
    requires SoFar(all, c, seen)
    requires seen == all || (seen != [] && c(seen).closesResult)
    ensures IsVisit(all, c, seen)
  {}

  // ---------------------------------------------------------------- what happens to the items on the way

  function VisitEvents(i: nat, r: Reaction): seq<Event> {
    [Opened(i), Yielded(i)]
    + (if r.closesItem then [FreedItem(i)] else [])
    + (if r.closesResult then [FreedResult] else [])
    + (if r.closesItem then [] else [FreedItem(i)])
  }

  function OneVisit(c: Consumer, seen: seq<nat>): seq<Event>
    requires seen != []
  {
    VisitEvents(seen[|seen| - 1], c(seen))
  }

  function VisitLog(c: Consumer, seen: seq<nat>): seq<Event> {
    if seen == [] then [] else VisitLog(c, seen[..|seen| - 1]) + OneVisit(c, seen)
  }

  /**
   The item an iteration has open, if any. Nothing can be opened while another item is open,
   and only the open item can be shown or freed.
   */
  function OpenItem(open: Option<nat>, e: Event): Option<Option<nat>> {
    match e
    case Opened(i) => if open.None? then Some(Some(i)) else None
    case Yielded(i) => if open == Some(i) then Some(open) else None
    case FreedItem(i) => if open == Some(i) then Some(None) else None
    case FreedResult => Some(open)
    case Diffed(_) => None
  }

  /**
   For every body, an iteration has at most one of its items open at any moment, shows the body
   an open item, gives every item back exactly once, and leaves none open.
   */
  lemma {:induction false} VisitsGiveEverythingBack(c: Consumer, seen: seq<nat>)
    ensures Run(None, OpenItem, VisitLog(c, seen)) == Some(None)
  {
    if seen != [] {
      VisitsGiveEverythingBack(c, seen[..|seen| - 1]);
      Split(None, OpenItem, VisitLog(c, seen[..|seen| - 1]), OneVisit(c, seen));
      OneVisitGivesBack(seen[|seen| - 1], c(seen));
    }
  }

  lemma {:induction false} OneVisitGivesBack(i: nat, r: Reaction)
    ensures Run(None, OpenItem, VisitEvents(i, r)) == Some(None)
  {
    Extend(None, OpenItem, [], None, Opened(i));
    Extend(None, OpenItem, [Opened(i)], Some(i), Yielded(i));
    var shown := [Opened(i)] + [Yielded(i)];
    assert shown == [Opened(i), Yielded(i)];
    var closesFirst := if r.closesItem then FreedItem(i) else FreedResult;
    Extend(None, OpenItem, shown, Some(i), FreedItem(i));
    Extend(None, OpenItem, shown, Some(i), FreedResult);
    Extend(None, OpenItem, shown + [FreedItem(i)], None, FreedResult);
    Extend(None, OpenItem, shown + [FreedResult], Some(i), FreedItem(i));
    assert VisitEvents(i, r) ==
           if r.closesItem && r.closesResult then shown + [FreedItem(i)] + [FreedResult]
           else if r.closesResult then shown + [FreedResult] + [FreedItem(i)]
           else shown + [FreedItem(i)];
  }

  /** The result is closed by an iteration at most once, at its last visit. */
  lemma {:induction false} ResultClosedAtTheEnd(c: Consumer, seen: seq<nat>)
    requires forall k | 0 < k < |seen| :: !Ends(c, seen[..k])
    ensures FreedResult in VisitLog(c, seen) <==> seen != [] && c(seen).closesResult
  {
    if seen != [] {
      var before := seen[..|seen| - 1];
      forall k | 0 < k < |before| ensures before[..k] == seen[..k] {}
      ResultClosedAtTheEnd(c, before);
      if before != [] { assert !Ends(c, seen[..|before|]); }
    }
  }

  function Opens(xs: seq<nat>): seq<Event> {
    if xs == [] then [] else Opens(xs[..|xs| - 1]) + [Opened(xs[|xs| - 1])]
  }

  function Frees(xs: seq<nat>): seq<Event> {
    if xs == [] then [] else Frees(xs[..|xs| - 1]) + [FreedItem(xs[|xs| - 1])]
  }

  lemma {:induction false} OpensOneMore(log: seq<Event>, xs: seq<nat>, x: nat)
    ensures log + Opens(xs + [x]) == log + Opens(xs) + [Opened(x)]
  {
    assert (xs + [x])[..|xs + [x]| - 1] == xs;
  }

  lemma {:induction false} FreesOneMore(log: seq<Event>, xs: seq<nat>, x: nat)
    ensures log + Frees(xs + [x]) == log + Frees(xs) + [FreedItem(x)]
  {
    assert (xs + [x])[..|xs + [x]| - 1] == xs;
  }

  /** The items that C has handed out and not got back. */
  function Live(log: seq<Event>): multiset<nat> {
    if log == [] then multiset{} else LiveAfter(Live(log[..|log| - 1]), log[|log| - 1])
  }

  function LiveAfter(live: multiset<nat>, e: Event): multiset<nat> {
    match e
    case Opened(i) => live + multiset{i}
    case FreedItem(i) => live - multiset{i}
    case _ => live
  }

  lemma {:induction false} LiveOneMore(log: seq<Event>, e: Event)
    ensures Live(log + [e]) == LiveAfter(Live(log), e)
  {
    assert (log + [e])[..|log + [e]| - 1] == log;
  }

  lemma {:induction false} OpensAddUp(log: seq<Event>, xs: seq<nat>)
    ensures Live(log + Opens(xs)) == Live(log) + multiset(xs)
  {
    if xs == [] {
      assert log + Opens(xs) == log;
    } else {
      var ys, x := xs[..|xs| - 1], xs[|xs| - 1];
      assert xs == ys + [x];
      OpensAddUp(log, ys);
      OpensOneMore(log, ys, x);
      LiveOneMore(log + Opens(ys), Opened(x));
    }
  }

  lemma {:induction false} LastApart(xs: seq<nat>, rest: multiset<nat>)
    requires xs != []
    ensures rest + multiset(xs) == rest + multiset{xs[|xs| - 1]} + multiset(xs[..|xs| - 1])
  {
    assert xs == xs[..|xs| - 1] + [xs[|xs| - 1]];
  }

  lemma {:induction false} FreeOne(log: seq<Event>, ys: seq<nat>, x: nat, rest: multiset<nat>)
    requires Live(log + Frees(ys)) == rest + multiset{x}
    ensures Live(log + Frees(ys + [x])) == rest
  {
    FreesOneMore(log, ys, x);
    LiveOneMore(log + Frees(ys), FreedItem(x));
  }

  lemma {:induction false} FreeLast(log: seq<Event>, xs: seq<nat>, rest: multiset<nat>)
    requires xs != []
    requires Live(log + Frees(xs[..|xs| - 1])) == rest + multiset{xs[|xs| - 1]}
    ensures Live(log + Frees(xs)) == rest
  {
    FreeOne(log, xs[..|xs| - 1], xs[|xs| - 1], rest);
    assert xs == xs[..|xs| - 1] + [xs[|xs| - 1]];
  }

  lemma {:induction false} FreesTakeAway(log: seq<Event>, xs: seq<nat>, rest: multiset<nat>)
    requires Live(log) == rest + multiset(xs)
    ensures Live(log + Frees(xs)) == rest
  {
    if xs != [] {
      LastApart(xs, rest);
      FreesTakeAway(log, xs[..|xs| - 1], rest + multiset{xs[|xs| - 1]});
      FreeLast(log, xs, rest);
    } else {
      assert log + Frees(xs) == log;
    }
  }

  /** DiffResult opens the retrievable items, has exactly those open while C reads them, and leaves none open. */
  lemma {:induction false} DiffGivesEverythingBack(log: seq<Event>, xs: seq<nat>)
    ensures Live(log + Opens(xs)) == Live(log) + multiset(xs)
    ensures Live(log + Opens(xs) + [Diffed(xs)] + Frees(xs)) == Live(log)
  {
    OpensAddUp(log, xs);
    LiveOneMore(log + Opens(xs), Diffed(xs));
    FreesTakeAway(log + Opens(xs) + [Diffed(xs)], xs, Live(log));
  }

  // ---------------------------------------------------------------- the code

  class Library {
    var log: seq<Event>
  }

  /** A decoded item; documents are told apart by a number, and the empty one is 0. */
  type Document = nat

  const EMPTY_DOCUMENT: Document := 0

  class ResultItem {
    const lib: Library
    const index: nat
    const document: Document
    var closed: bool

    constructor (lib: Library, index: nat, document: Document)
      ensures this.lib == lib && this.index == index && this.document == document && !closed
    {
      this.lib, this.index, this.document, closed := lib, index, document, false;
    }

    /** QueryResultItem.Value: the document of an open item only */
    method Value() returns (d: Document)
      ensures d == if closed then EMPTY_DOCUMENT else document
    {
      if closed {
        return EMPTY_DOCUMENT;
      }
      return document;
    }

    method Close()
      modifies this, lib
      ensures closed
      ensures lib.log == if old(closed) then old(lib.log) else old(lib.log) + [FreedItem(index)]
    {
      if !closed {
        lib.log := lib.log + [FreedItem(index)];
        closed := true;
      }
    }
  }

  class QueryResult {
    const lib: Library
    const count: nat
    const retrievable: nat -> bool     // C's answers, which never change for one result
    const documents: nat -> Document
    var open: bool

    /** newQueryResult, with C's item count */
    constructor (lib: Library, n: nat, retrievable: nat -> bool, documents: nat -> Document)
      ensures this.lib == lib && open && count == n && this.retrievable == retrievable && this.documents == documents
    {
      this.lib, open, count, this.retrievable, this.documents := lib, true, n, retrievable, documents;
    }

    /** The indices below n that can still be had. */
    function Below(n: nat): seq<nat>
      reads this
    {
      if open then Retrievable(n, retrievable) else []
    }

    function All(): seq<nat>
      reads this
    {
      Below(count)
    }

    method Close()
      modifies this, lib
      ensures !open
      ensures lib.log == if old(open) then old(lib.log) + [FreedResult] else old(lib.log)
    {
      if open {
        lib.log := lib.log + [FreedResult];
        open := false;
      }
    }

    method Item(i: int) returns (item: ResultItem?)
      modifies lib
      ensures item != null <==> 0 <= i < count && open && retrievable(i)
      ensures item == null ==> lib.log == old(lib.log)
      ensures item != null ==> fresh(item) && item.lib == lib && item.index == i && item.document == documents(i) && !item.closed
      ensures item != null ==> lib.log == old(lib.log) + [Opened(i)]
    {
      if i >= count || i < 0 {
        return null;
      }
      if !open {
        return null;
      }
      if !retrievable(i) {
        return null;
      }
      lib.log := lib.log + [Opened(i)];
      item := new ResultItem(lib, i, documents(i));
    }

    /** One pass through the body, which reacts as `r`, and the Close that follows it. */
    method Visit(item: ResultItem, r: Reaction, ghost before: seq<Event>)
      requires open && item.lib == lib && !item.closed && lib.log == before + [Opened(item.index)]
      modifies this, lib, item
      ensures open == !r.closesResult
      ensures lib.log == before + VisitEvents(item.index, r)
    {
      lib.log := lib.log + [Yielded(item.index)];
      if r.closesItem { item.Close(); }
      if r.closesResult { Close(); }
      item.Close();
    }

    /** Ranging over Items with body `c`; `seen` is what the body was shown. */
    method Items(c: Consumer) returns (seen: seq<nat>)
      modifies this, lib
      ensures IsVisit(old(All()), c, seen)
      ensures lib.log == old(lib.log) + VisitLog(c, seen)
      ensures open == (old(open) && (seen == [] || !c(seen).closesResult))
    {
      ghost var all, log := All(), lib.log;
      seen := [];
      var i := 0;
      while i < count
        invariant 0 <= i <= count
        invariant SoFar(all, c, seen)
        invariant open == (old(open) && (seen == [] || !c(seen).closesResult))
        invariant open ==> seen == Retrievable(i, retrievable)
        invariant lib.log == log + VisitLog(c, seen)
      {
        var item := Item(i);
        if item != null {
          NextRetrievable(i, count, retrievable);
          GoingOn(all, c, seen, i);
          var r := c(seen + [i]);
          Visit(item, r, log + VisitLog(c, seen));
          LogGrows(log, c, seen, i);
          seen := seen + [i];
          if !r.goOn {
            return;
          }
        }
        i := i + 1;
      }
      Finished(all, c, seen);
    }

    /** itemsAsSlice: all retrievable items, in order and open; the caller closes them. */
    method ItemsAsSlice() returns (items: seq<ResultItem>)
      modifies lib
      ensures |items| == |All()| && forall k | 0 <= k < |items| :: items[k].index == All()[k]
      ensures forall k | 0 <= k < |items| :: fresh(items[k]) && items[k].lib == lib && !items[k].closed
      ensures forall j, k | 0 <= j < k < |items| :: items[j] != items[k]
      ensures lib.log == old(lib.log) + Opens(All())
    {
      ghost var log := lib.log;
      items := [];
      var i := 0;
      while i < count
        invariant 0 <= i <= count
        invariant |items| == |Below(i)| && (forall k | 0 <= k < |items| :: items[k].index == Below(i)[k])
        invariant lib.log == log + Opens(Below(i))
        invariant forall k | 0 <= k < |items| :: fresh(items[k]) && items[k].lib == lib && !items[k].closed
        invariant forall j, k | 0 <= j < k < |items| :: items[j] != items[k]
      {
        var item := Item(i);
        if item != null {
          items := items + [item];
          OpensOneMore(log, Below(i), i);
        }
        i := i + 1;
      }
    }

    /** Values: ranges over Items with a body that appends the document of the item it is given. */
    method Values() returns (values: seq<Document>)
      modifies lib
      ensures |values| == |All()| && forall k | 0 <= k < |values| :: values[k] == documents(All()[k])
      ensures lib.log == old(lib.log) + VisitLog(APPENDING, All())
    {
      ghost var log := lib.log;
      values := [];
      var i := 0;
      while i < count
        invariant 0 <= i <= count
        invariant |values| == |Below(i)| && forall k | 0 <= k < |values| :: values[k] == documents(Below(i)[k])
        invariant lib.log == log + VisitLog(APPENDING, Below(i))
      {
        var item := Item(i);
        if item != null {
          LogGrows(log, APPENDING, Below(i), i);
          lib.log := lib.log + [Yielded(i)];
          var document := item.Value();
          values := values + [document];
          item.Close();
          assert lib.log == log + VisitLog(APPENDING, Below(i)) + [Opened(i), Yielded(i), FreedItem(i)];
        }
        i := i + 1;
      }
    }
  }

  lemma {:induction false} LogGrows(log: seq<Event>, c: Consumer, seen: seq<nat>, i: nat)
    ensures log + VisitLog(c, seen) + VisitEvents(i, c(seen + [i])) == log + VisitLog(c, seen + [i])
  {
    var seen' := seen + [i];
    assert seen'[..|seen'| - 1] == seen;
    assert log + VisitLog(c, seen) + OneVisit(c, seen') == log + (VisitLog(c, seen) + OneVisit(c, seen'));
  }

  /** Differ.DiffResult; `diff` is what C's differ makes of the items with these indices. */
  method DiffResult<D>(result: QueryResult, diff: seq<nat> -> D) returns (d: D)
    modifies result.lib
    ensures d == diff(result.All())
    ensures result.lib.log == old(result.lib.log) + Opens(result.All()) + [Diffed(result.All())] + Frees(result.All())
  {
    var items := result.ItemsAsSlice();
    var indices := seq(|items|, k requires 0 <= k < |items| => items[k].index);
    assert indices == result.All();
    d := diff(indices);
    result.lib.log := result.lib.log + [Diffed(indices)];
    CloseAll(result.lib, items, indices);
  }

  /** The last loop of DiffResult. */
  method CloseAll(lib: Library, items: seq<ResultItem>, ghost indices: seq<nat>)
    requires |indices| == |items| && forall k | 0 <= k < |items| :: items[k].index == indices[k]
    requires forall k | 0 <= k < |items| :: items[k].lib == lib && !items[k].closed
    requires forall j, k | 0 <= j < k < |items| :: items[j] != items[k]
    modifies lib, set k | 0 <= k < |items| :: items[k]
    ensures lib.log == old(lib.log) + Frees(indices)
  {
    ghost var start := lib.log;
    var k := 0;
    while k < |items|
      invariant 0 <= k <= |items|
      invariant forall j | k <= j < |items| :: !items[j].closed
      invariant lib.log == start + Frees(indices[..k])
    {
      items[k].Close();
      FreesOneMore(start, indices[..k], indices[k]);
      assert indices[..k + 1] == indices[..k] + [indices[k]];
      k := k + 1;
    }
    assert indices[..k] == indices;
  }
}
