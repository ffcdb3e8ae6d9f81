/**
 The values behind Sync.subscriptions and Store.observers: a list of registrations, and
 for each registration ever made its cancel flag, its handle, and what C was asked to do with it.
 */
module Registrations {
  /** A SyncSubscription or StoreObserver, with the number of times C was asked to cancel and to free it. */
  datatype Registration = Registration(hasHandle: bool, canceled: bool, cCancels: nat, cFrees: nat)
  {
    /** cancel(): sets the flag once, and gives the handle to C for cancelling and freeing once. */
    function Cancel(): Registration {
      if canceled then this
      else if hasHandle then Registration(false, true, cCancels + 1, cFrees + 1)
      else this.(canceled := true)
    }
  }

  const NEW_REGISTRATION := Registration(true, false, 0, 0)

  /** The list without the first entry equal to x. */
  function Without<T(==)>(list: seq<T>, x: T): seq<T> {
    if list == [] then []
    else if list[0] == x then list[1..]
    else [list[0]] + Without(list[1..], x)
  }

  /** Nothing is deleted but the first x, and the order of the rest is kept. */
  lemma {:induction false} WithoutDeletesOne<T>(list: seq<T>, x: T, i: nat)
    requires i < |list| && list[i] == x && x !in list[..i]
    ensures Without(list, x) == list[..i] + list[i + 1..]
  {
    if i == 0 {
      assert list[..0] + list[1..] == list[1..];
    } else {
      assert list[0] in list[..i];
      assert list[1..][..i - 1] == list[..i][1..];
      WithoutDeletesOne(list[1..], x, i - 1);
      assert list[1..][..i - 1] + list[1..][i..] == list[1..i] + list[i + 1..];
      assert [list[0]] + (list[1..i] + list[i + 1..]) == list[..i] + list[i + 1..];
    }
  }

  lemma {:induction false} WithoutAbsent<T>(list: seq<T>, x: T)
    requires x !in list
    ensures Without(list, x) == list
  {
    if list != [] {
      WithoutAbsent(list[1..], x);
      assert list == [list[0]] + list[1..];
    }
  }

  datatype Registry = Registry(entries: map<nat, Registration>, list: seq<nat>)
  {
    function Registered(): Registry {
      Registry(entries[|entries| := NEW_REGISTRATION], list + [|entries|])
    }

    function Canceled(x: nat): Registry {
      if x in entries then this.(entries := entries[x := entries[x].Cancel()]) else this
    }

    function Removed(x: nat): Registry { this.(list := Without(list, x)) }
  }

  const EMPTY_REGISTRY := Registry(map[], [])
}
