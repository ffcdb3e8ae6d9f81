/** The Transaction object, with nobody else using it, and the arguments of Execute. */
module TransactionObject {
  import opened Wrappers
  import opened TransactionProtocol

  /** QueryArguments: values are opaque to the Go layer, and told apart by a number. */
  type Arguments = map<string, nat>

  /** What several argument maps mean together: no map at all without any, and later maps win. */
  function Merged(args: seq<Arguments>): Option<Arguments> {
    if args == [] then None else Some(MergedMap(args))
  }

  function MergedMap(args: seq<Arguments>): Arguments {
    if args == [] then map[] else MergedMap(args[..|args| - 1]) + args[|args| - 1]
  }

  /** A merged placeholder has the value of the last map that names it. */
  lemma {:induction false} LastMapWins(args: seq<Arguments>, k: string) returns (i: nat)
    requires k in MergedMap(args)
    ensures i < |args| && k in args[i] && MergedMap(args)[k] == args[i][k]
    ensures forall j | i < j < |args| :: k !in args[j]
  {
    var n := |args| - 1;
    if k in args[n] {
      i := n;
    } else {
      i := LastMapWins(args[..n], k);
    }
  }

  /** No placeholder is lost. */
  lemma {:induction false} NamedIsMerged(args: seq<Arguments>, i: nat, k: string)
    requires i < |args| && k in args[i]
    ensures k in MergedMap(args)
  {
    var n := |args| - 1;
    if i < n { NamedIsMerged(args[..n], i, k); }
  }

  lemma {:induction false} NamesAndValues(args: seq<Arguments>)
    ensures forall k :: k in MergedMap(args) <==> exists m <- args :: k in m
    ensures forall k, i | 0 <= i < |args| && k in args[i] && (forall j | i < j < |args| :: k !in args[j]) ::
              k in MergedMap(args) && MergedMap(args)[k] == args[i][k]
  {
    forall k ensures k in MergedMap(args) <==> exists m <- args :: k in m {
      if k in MergedMap(args) { var i := LastMapWins(args, k); }
      if m :| m in args && k in m {
        var i :| 0 <= i < |args| && args[i] == m;
        NamedIsMerged(args, i, k);
      }
    }
    forall k, i | 0 <= i < |args| && k in args[i] && (forall j | i < j < |args| :: k !in args[j])
      ensures k in MergedMap(args) && MergedMap(args)[k] == args[i][k]
    {
      NamedIsMerged(args, i, k);
      var last := LastMapWins(args, k);
    }
  }

  /** The two loops of Store.Execute and Transaction.Execute. */
  method Merge(args: seq<Arguments>) returns (merged: Option<Arguments>)
    ensures merged == Merged(args)
    ensures merged.None? <==> args == []
    ensures merged.Some? ==> forall k :: k in merged.value <==> exists m <- args :: k in m
    ensures merged.Some? ==> forall k, i | 0 <= i < |args| && k in args[i] && (forall j | i < j < |args| :: k !in args[j]) ::
              k in merged.value && merged.value[k] == args[i][k]
  {
    if |args| == 0 {
      return None;
    }
    var m: Arguments := map[];
    var i := 0;
    while i < |args|
      invariant 0 <= i <= |args| && m == MergedMap(args[..i])
    {
      ghost var before := m;
      var left := args[i].Keys;
      while left != {}
        invariant left <= args[i].Keys
        invariant m == before + (args[i] - left)
        decreases left
      {
        var k :| k in left;
        assert args[i] - (left - {k}) == (args[i] - left)[k := args[i][k]];
        m := m[k := args[i][k]];
        left := left - {k};
      }
      assert args[i] - {} == args[i];
      assert args[..i + 1][..i] == args[..i];
      i := i + 1;
    }
    assert args[..i] == args;
    NamesAndValues(args);
    return Some(m);
  }

  /** The executes that reach C, of those that a user function attempts one after the other. */
  function Asked(script: seq<bool>): seq<CCall> {
    if script == [] then []
    else Asked(script[..|script| - 1]) + if script[|script| - 1] then [CExecute] else []
  }

  lemma {:induction false} AskedOneMore(script: seq<bool>, i: nat)
    requires i < |script|
    ensures Asked(script[..i + 1]) == Asked(script[..i]) + if script[i] then [CExecute] else []
  {
    assert script[..i + 1][..i] == script[..i];
  }

  class Transaction {
    const handleIsNull: bool
    var closed: bool
    var calls: seq<CCall>

    ghost predicate Valid()
      reads this
    {
      && (handleIsNull ==> calls == [])
      && (!closed ==> OnlyExecutes(calls))
    }

    constructor (handleIsNull: bool)
      ensures Valid() && !closed && calls == [] && this.handleIsNull == handleIsNull
    {
      this.handleIsNull := handleIsNull;
      closed, calls := false, [];
    }

    /** Execute: true if C was asked. */
    method Execute(encodes: bool) returns (asked: bool)
      requires Valid()
      modifies this`calls
      ensures Valid() && asked == (!closed && !handleIsNull && encodes)
      ensures calls == if asked then old(calls) + [CExecute] else old(calls)
    {
      if closed || handleIsNull || !encodes {
        return false;
      }
      calls := calls + [CExecute];
      return true;
    }

    /** complete; `answer` is what C would report */
    method Complete(action: Action, answer: Option<Action>) returns (taken: Action, err: bool)
      requires Valid()
      modifies this
      ensures Valid() && closed
      ensures calls == if old(closed) || handleIsNull then old(calls) else old(calls) + [CComplete(action)]
      ensures err <==> old(closed) || handleIsNull || answer.None?
      ensures taken == if err then ROLLBACK else answer.value
    {
      if closed {
        return ROLLBACK, true;
      }
      var failed := handleIsNull;
      if !handleIsNull {
        calls := calls + [CComplete(action)];
        failed := answer.None?;
      }
      closed := true;
      if failed {
        return ROLLBACK, true;
      }
      return answer.value, false;
    }

    /** cleanup: nothing after a complete; otherwise rolls back and frees the handle */
    method Cleanup()
      requires Valid()
      modifies this
      ensures Valid() && closed
      ensures calls == if old(closed) || handleIsNull then old(calls) else old(calls) + [CComplete(ROLLBACK), CFree]
    {
      if closed {
        return;
      }
      if !handleIsNull {
        calls := calls + [CComplete(ROLLBACK)];
      }
      closed := true;
      if !handleIsNull {
        calls := calls + [CFree];
      }
    }

    /** The executes of a user function. */
    method ExecuteAll(script: seq<bool>)
      requires Valid() && !closed
      modifies this`calls
      ensures Valid() && calls == if handleIsNull then old(calls) else old(calls) + Asked(script)
    {
      ghost var before := calls;
      var i := 0;
      while i < |script|
        invariant 0 <= i <= |script| && Valid() && !closed
        invariant calls == if handleIsNull then before else before + Asked(script[..i])
      {
        ghost var sofar := Asked(script[..i]);
        AskedOneMore(script, i);
        var asked := Execute(script[i]);
        assert before + sofar + [CExecute] == before + (sofar + [CExecute]);
        assert sofar + [] == sofar;
        i := i + 1;
      }
      assert script[..i] == script;
    }

    /** Store.Transaction after its begin, with a user function that executes `script` and then ends as `fn` says. */
    method RunTransaction(script: seq<bool>, fn: FnResult, answer: Option<Action>) returns (outcome: Outcome)
      requires Valid() && !closed
      modifies this
      ensures closed && outcome == OutcomeOf(fn, if handleIsNull then None else answer)
      ensures calls == if handleIsNull then old(calls)
                       else old(calls) + Asked(script) + [CComplete(Requested(fn))] + if fn.FnPanic? then [CFree] else []
    {
      ExecuteAll(script);
      match fn {
        case FnReturn(action, err) =>
          if err {
            var _, _ := Complete(ROLLBACK, answer);
            outcome := Returned(ROLLBACK, true);
          } else {
            var taken, failed := Complete(action, answer);
            outcome := if failed then Returned(ROLLBACK, true) else Returned(taken, false);
          }
        case FnPanic =>
          outcome := Panicked;
      }
      Cleanup();
    }
  }
}
