/**
 The reference-counted contexts of login providers, shared with C, which retains and
 releases them by id.
 */
module LoginProviders {
  import opened Wrappers

  datatype State = State(counts: map<nat, int>, nextId: nat)

  const INITIAL := State(map[], 1)

  datatype Event =
    | Create              // the first critical section of SetLoginProvider
    | Discard(id: nat)    // its second one, when C could not make a provider
    | Retain(id: nat)
    | Release(id: nat)
    | Expire(id: nat)     // looks the callback up

  function Next(s: State, e: Event): State {
    match e
    case Create => State(s.counts[s.nextId := 1], s.nextId + 1)
    case Discard(id) => s.(counts := s.counts - {id})
    case Retain(id) => if id in s.counts then s.(counts := s.counts[id := s.counts[id] + 1]) else s
    case Release(id) =>
      if id !in s.counts then s
      else if s.counts[id] - 1 <= 0 then s.(counts := s.counts - {id})
      else s.(counts := s.counts[id := s.counts[id] - 1])
    case Expire(_) => s
  }

  function After(h: seq<Event>): State {
    if h == [] then INITIAL else Next(After(h[..|h| - 1]), h[|h| - 1])
  }

  function Creates(h: seq<Event>): nat {
    if h == [] then 0 else Creates(h[..|h| - 1]) + if h[|h| - 1].Create? then 1 else 0
  }

  /** One for the creation, plus the retains, minus the releases. */
  function Balance(h: seq<Event>, id: nat): int {
    if h == [] then 1
    else Balance(h[..|h| - 1], id) + if h[|h| - 1] == Retain(id) then 1 else if h[|h| - 1] == Release(id) then -1 else 0
  }

  /** Never discarded, and never down to nothing. */
  ghost predicate KeptUp(h: seq<Event>, id: nat) {
    Discard(id) !in h && forall i | 0 <= i <= |h| :: Balance(h[..i], id) > 0
  }

  lemma {:induction false} KeptUpOneMore(h: seq<Event>, e: Event, id: nat)
    ensures KeptUp(h + [e], id) <==> KeptUp(h, id) && e != Discard(id) && Balance(h + [e], id) > 0
  {
    var h' := h + [e];
    assert forall i | 0 <= i <= |h| :: h'[..i] == h[..i];
    assert h'[..|h'|] == h';
    if KeptUp(h', id) {
      forall i | 0 <= i <= |h| ensures Balance(h[..i], id) > 0 { assert Balance(h'[..i], id) > 0; }
      assert Balance(h'[..|h'|], id) > 0;
    }
  }

  lemma {:induction false} IdsFollowCreations(h: seq<Event>)
    ensures After(h).nextId == Creates(h) + 1
    ensures forall id <- After(h).counts :: 0 < id <= Creates(h)
  {
    if h != [] { IdsFollowCreations(h[..|h| - 1]); }
  }

  lemma {:induction false} CreatesGrow(a: seq<Event>, b: seq<Event>)
    ensures Creates(a) <= Creates(a + b)
  {
    if b == [] {
      assert a + b == a;
    } else {
      assert (a + b)[..|a + b| - 1] == a + b[..|b| - 1];
      CreatesGrow(a, b[..|b| - 1]);
    }
  }

  /** Presence and count of a provider against its history `h` since its creation. */
  ghost predicate Agrees(s: State, h: seq<Event>, id: nat) {
    && (id in s.counts <==> KeptUp(h, id))
    && (id in s.counts ==> s.counts[id] == Balance(h, id) && Balance(h, id) >= 1)
  }

  lemma {:induction false} AgreesOneMore(s: State, h: seq<Event>, e: Event, id: nat)
    requires Agrees(s, h, id) && id < s.nextId
    ensures Agrees(Next(s, e), h + [e], id)
  {
    KeptUpOneMore(h, e, id);
    assert (h + [e])[..|h + [e]| - 1] == h;
    assert KeptUp(h, id) ==> Balance(h[..|h|], id) > 0;
    assert h[..|h|] == h;
  }

  /**
   For every history after its creation, a provider is present if and only if it was never
   discarded and its balance was positive all along; and while present its count is that
   balance, so at least one.
   */
  lemma {:induction false} PresentWhileBalanced(before: seq<Event>, h: seq<Event>, id: nat)
    requires id == Creates(before) + 1
    ensures id in After(before + [Create] + h).counts <==> KeptUp(h, id)
    ensures id in After(before + [Create] + h).counts ==>
              After(before + [Create] + h).counts[id] == Balance(h, id) && Balance(h, id) >= 1
  {
    var start := before + [Create];
    if h == [] {
      assert start[..|start| - 1] == before;
      IdsFollowCreations(before);
      assert start + h == start && h[..0] == [];
      assert KeptUp(h, id);
    } else {
      var n := |h| - 1;
      PresentWhileBalanced(before, h[..n], id);
      NextIdBeyond(before, h[..n]);
      AgreesOneMore(After(start + h[..n]), h[..n], h[n], id);
      assert (start + h)[..|start + h| - 1] == start + h[..n];
      assert h == h[..n] + [h[n]];
    }
  }

  lemma {:induction false} NextIdBeyond(before: seq<Event>, h: seq<Event>)
    ensures Creates(before) + 1 < After(before + [Create] + h).nextId
  {
    var start := before + [Create];
    assert start[..|start| - 1] == before;
    CreatesGrow(start, h);
    IdsFollowCreations(start + h);
  }

  /** An id that was never drawn is absent. */
  lemma {:induction false} AbsentBeforeCreation(h: seq<Event>, id: nat)
    requires id == 0 || Creates(h) < id
    ensures id !in After(h).counts
  {
    IdsFollowCreations(h);
  }

  /** Once a drawn id is gone it never comes back, so its callback is never found again. */
  lemma {:induction false} GoneForGood(h: seq<Event>, more: seq<Event>, id: nat)
    requires 0 < id <= Creates(h) && id !in After(h).counts
    ensures id !in After(h + more).counts
  {
    if more == [] {
      assert h + more == h;
    } else {
      assert (h + more)[..|h + more| - 1] == h + more[..|more| - 1];
      GoneForGood(h, more[..|more| - 1], id);
      CreatesGrow(h, more[..|more| - 1]);
      IdsFollowCreations(h + more[..|more| - 1]);
    }
  }

  // ---------------------------------------------------------------- the global variables and their lock

  /** loginProviders and nextLoginProviderID, with all that has happened to them; a callback is named by its id. */
  class Providers {
    var counts: map<nat, int>
    var nextId: nat
    ghost var history: seq<Event>

    function View(): State
      reads this
    {
      State(counts, nextId)
    }

    ghost predicate Valid()
      reads this
    {
      View() == After(history)
    }

    constructor ()
      ensures Valid() && history == []
    {
      counts, nextId, history := map[], 1, [];
    }

    method Retain(id: nat)
      requires Valid()
      modifies this
      ensures Valid() && history == old(history) + [Event.Retain(id)]
    {
      history := history + [Event.Retain(id)];
      assert history[..|history| - 1] == old(history);
      if id in counts {
        counts := counts[id := counts[id] + 1];
      }
    }

    method Release(id: nat)
      requires Valid()
      modifies this
      ensures Valid() && history == old(history) + [Event.Release(id)]
    {
      history := history + [Event.Release(id)];
      assert history[..|history| - 1] == old(history);
      if id in counts {
        counts := counts[id := counts[id] - 1];
        if counts[id] <= 0 {
          counts := counts - {id};
        }
      }
      assert id in old(counts) ==> old(counts)[id := old(counts)[id] - 1] - {id} == old(counts) - {id};
    }

    /**
     goLoginProviderExpiringCallback: finds the callback of the provider with this very id, if and only
     if it was drawn, was never discarded, and has been kept up by its retains and releases ever since.
     */
    method Expiring(id: nat) returns (callback: Option<nat>)
      requires Valid()
      ensures callback.Some? ==> callback.value == id
      ensures forall before, h | history == before + [Create] + h && id == Creates(before) + 1 ::
                callback.Some? <==> KeptUp(h, id)
      ensures id == 0 || Creates(history) < id ==> callback.None?
    {
      forall before, h | history == before + [Create] + h && id == Creates(before) + 1
        ensures id in counts <==> KeptUp(h, id)
      {
        PresentWhileBalanced(before, h, id);
      }
      if id == 0 || Creates(history) < id { AbsentBeforeCreation(history, id); }
      if id in counts {
        return Some(id);
      }
      return None;
    }

    /** SetLoginProvider; `made` is whether C could make a provider, and nobody else runs meanwhile */
    method SetLoginProvider(made: bool) returns (ok: bool)
      requires Valid()
      modifies this
      ensures Valid() && ok == made
      ensures history == old(history) + if made then [Create] else [Create] + [Discard(old(nextId))]
      ensures counts == if made then old(counts)[old(nextId) := 1] else old(counts)
    {
      IdsFollowCreations(history);
      var id := nextId;
      nextId := nextId + 1;
      counts := counts[id := 1];
      history := history + [Create];
      assert history[..|history| - 1] == old(history);
      if !made {
        counts := counts - {id};
        ghost var created := history;
        history := history + [Discard(id)];
        assert history[..|history| - 1] == created;
        return false;
      }
      return true;
    }
  }
}
