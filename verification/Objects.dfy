/**
 The same operations on objects, one call at a time: the fields of SyncSubscription and
 StoreObserver, the slices that Sync and Store keep of them, and Ditto.Close over both.
 */
module Objects {
  import opened Registrations

  /** A SyncSubscription or a StoreObserver; the two counters stand for what C has been asked. */
  class Registrant {
    var hasHandle: bool
    var canceled: bool
    var cCancels: nat
    var cFrees: nat

    constructor ()
      ensures View() == NEW_REGISTRATION
    {
      hasHandle, canceled, cCancels, cFrees := true, false, 0, 0;
    }

    function View(): Registration
      reads this
    {
      Registration(hasHandle, canceled, cCancels, cFrees)
    }

    /** The guarded body of SyncSubscription.cancel and StoreObserver.Cancel. */
    method Cancel()
      modifies this
      ensures View() == old(View()).Cancel()
    {
      if canceled {
        return;
      }
      canceled := true;
      if hasHandle {
        cCancels := cCancels + 1;
        cFrees := cFrees + 1;
        hasHandle := false;
      }
    }
  }

  /** A Go slice of registrants: the backing array may be longer than the slice, and is shared by in-place edits. */
  class RegistrantList {
    var slots: array<Registrant?>
    var len: nat

    ghost predicate Valid()
      reads this, slots
    {
      && len <= slots.Length
      && (forall i | 0 <= i < len :: slots[i] != null)
      && (forall i, j | 0 <= i < j < len :: slots[i] != slots[j])
    }

    ghost function Contents(): (c: seq<Registrant>)
      requires Valid()
      reads this, slots
    {
      seq(len, i requires 0 <= i < len && Valid() reads this, slots => slots[i])
    }

    constructor ()
      ensures Valid() && Contents() == [] && fresh(slots)
    {
      slots := new Registrant?[0];
      len := 0;
    }

    /** append(list, r): in place while there is room, else in a new and longer array. */
    method Append(r: Registrant)
      requires Valid() && r !in Contents()
      modifies this, slots
      ensures Valid() && Contents() == old(Contents()) + [r]
      ensures slots == old(slots) || fresh(slots)
    {
      if len == slots.Length {
        var longer := new Registrant?[2 * len + 1];
        forall i | 0 <= i < len { longer[i] := slots[i]; }
        slots := longer;
      }
      assert forall i | 0 <= i < len :: slots[i] == old(Contents()[i]);
      slots[len] := r;
      len := len + 1;
    }

    /** The copy handed out by Sync.Subscriptions: a new array, so no later edit of the list reaches it. */
    method Snapshot() returns (copy: array<Registrant?>)
      requires Valid()
      ensures fresh(copy) && copy[..] == Contents()
    {
      copy := new Registrant?[len];
      forall i | 0 <= i < len { copy[i] := slots[i]; }
    }

    /** removeSubscription: finds the entry and shifts the rest of the slice down over it. */
    method Remove(r: Registrant)
      requires Valid()
      modifies this, slots
      ensures Valid() && slots == old(slots)
      ensures Contents() == Without(old(Contents()), r)
    {
      var i := 0;
      while i < len && slots[i] != r
        invariant 0 <= i <= len
        invariant forall j | 0 <= j < i :: slots[j] != r
      {
        i := i + 1;
      }
      if i == len {
        WithoutAbsent(Contents(), r);
        return;
      }
      WithoutDeletesOne(Contents(), r, i);
      var k := i;
      while k + 1 < len
        invariant i <= k < len == old(len) && slots == old(slots)
        invariant forall j | 0 <= j < i :: slots[j] == old(slots[j])
        invariant forall j | i <= j < k :: slots[j] == old(slots[j + 1])
        invariant forall j | k <= j < slots.Length :: slots[j] == old(slots[j])
      {
        slots[k] := slots[k + 1];
        k := k + 1;
      }
      len := len - 1;
      var before := old(Contents());
      assert Contents() == before[..i] + before[i + 1..];
    }

    /** cancelAllSubscriptions and cancelAllObservers: every entry is cancelled, then the list is dropped. */
    method CancelAll()
      requires Valid()
      modifies this, Contents()
      ensures Valid() && Contents() == [] && fresh(slots)
      ensures forall r <- old(Contents()) :: r.View() == old(r.View()).Cancel()
    {
      ghost var all := Contents();
      var i := 0;
      while i < len
        invariant 0 <= i <= len == |all| && Valid() && Contents() == all
        invariant slots == old(slots) && len == old(len)
        invariant forall j | 0 <= j < i :: all[j].View() == old(all[j].View()).Cancel()
        invariant forall j | i <= j < |all| :: all[j].View() == old(all[j].View())
      {
        var r := slots[i];
        assert r == all[i];
        r.Cancel();
        i := i + 1;
      }
      slots := new Registrant?[0];
      len := 0;
    }
  }

  class Ditto {
    var closed: bool
    var syncActive: bool
    var handleFreed: bool
    var cFrees: nat
    const observers: RegistrantList
    const subscriptions: RegistrantList

    ghost predicate Valid()
      reads this, observers, subscriptions, observers.slots, subscriptions.slots
    {
      && observers != subscriptions && observers.slots != subscriptions.slots
      && observers.Valid() && subscriptions.Valid()
      && (forall o <- observers.Contents(), x <- subscriptions.Contents() :: o != x)
      && handleFreed == closed
      && (closed ==> !syncActive && cFrees == 1)
      && (!closed ==> cFrees == 0)
    }

    constructor ()
      ensures Valid() && !closed && observers.Contents() == [] && subscriptions.Contents() == []
    {
      closed, syncActive, handleFreed, cFrees := false, false, false, 0;
      observers := new RegistrantList();
      subscriptions := new RegistrantList();
    }

    /** Sync.Start: refused once the instance is closed; `fails` is C's answer. */
    method Start(fails: bool) returns (ok: bool)
      requires Valid()
      modifies this
      ensures Valid() && closed == old(closed) && handleFreed == old(handleFreed) && cFrees == old(cFrees)
      ensures ok == (!old(closed) && !fails)
      ensures syncActive == (old(syncActive) || ok)
    {
      if closed {
        return false;
      }
      if fails {
        return false;
      }
      syncActive := true;
      return true;
    }

    /** Sync.Stop */
    method Stop()
      requires Valid()
      modifies this
      ensures Valid() && !syncActive && closed == old(closed) && handleFreed == old(handleFreed) && cFrees == old(cFrees)
    {
      if closed {
        return;
      }
      syncActive := false;
    }

    /** Close: the first call cancels everything, stops sync and frees the handle; later calls do nothing. */
    method Close()
      requires Valid()
      modifies this, observers, subscriptions, observers.Contents(), subscriptions.Contents()
      ensures Valid() && closed && !syncActive && handleFreed && cFrees == 1
      ensures old(closed) ==> unchanged(observers) && unchanged(subscriptions)
      ensures !old(closed) ==> observers.Contents() == [] && subscriptions.Contents() == []
      ensures forall r <- old(observers.Contents()) + old(subscriptions.Contents()) ::
                r.View() == if old(closed) then old(r.View()) else old(r.View()).Cancel()
    {
      if closed {
        return;
      }
      ghost var os, xs := observers.Contents(), subscriptions.Contents();
      observers.CancelAll();
      assert subscriptions.Contents() == xs;
      subscriptions.CancelAll();
      syncActive := false;
      if !handleFreed {
        handleFreed := true;
        cFrees := cFrees + 1;
      }
      closed := true;
    }
  }
}
