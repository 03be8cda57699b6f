/** The pinned host slots frames arrive in: either the producer copies into the slot
    the ring hands it (Staged), or a transport fills slots in an order of its own
    (External). */
module HostIngress {
  import opened Options

  datatype Fill = Staged | External

  datatype SlotState = Idle | Committed | Releasing

  datatype Frame = Frame(stamp: nat, bytes: nat)

  /** `done[s]` is what querying the slot's upload event says; an event that was
      never recorded says it is done. */
  datatype Ring = Ring(
    fill: Fill, slotBytes: nat, frames: seq<Frame>, state: seq<SlotState>, done: seq<bool>, ready: seq<nat>,
    acquired: int, committed: nat, released: nat, running: bool)
  {
    ghost predicate Shape() {
      |frames| == |state| == |done| >= 1 && forall i | 0 <= i < |ready| :: ready[i] < |state|
    }
  }

  // ------------------------------------------------------ the critical sections

  /** acquire may go on. */
  predicate HasFree(r: Ring) {
    r.acquired - r.released < |r.state|
  }

  function Acquired(r: Ring): Ring {
    r.(acquired := r.acquired + 1)
  }

  /** The slot acquired last. */
  predicate IsLastAcquired(r: Ring, slot: nat)
    requires |r.state| > 0
  {
    r.acquired != r.committed && slot == (r.acquired - 1) % |r.state|
  }

  function Queued(r: Ring, slot: nat, f: Frame): Ring
    requires slot < |r.frames| == |r.state|
  {
    r.(frames := r.frames[slot := f], state := r.state[slot := Committed], ready := r.ready + [slot],
       committed := r.committed + 1)
  }

  function Abandoned(r: Ring): Ring {
    r.(acquired := r.acquired - 1)
  }

  function Popped(r: Ring): Ring
    requires r.ready != []
  {
    r.(ready := r.ready[1..])
  }

  /** The event is recorded behind the upload... */
  function Recorded(r: Ring, slot: nat): Ring
    requires slot < |r.done|
  {
    r.(done := r.done[slot := false])
  }

  /** ...before the slot is given back. */
  function Released(r: Ring, slot: nat): Ring
    requires slot < |r.state|
  {
    r.(state := r.state[slot := Releasing], released := r.released + 1)
  }

  /** slot_consumed's answer. */
  predicate IsConsumed(r: Ring, slot: nat)
    requires slot < |r.state| == |r.done|
  {
    r.state[slot] == Idle || (r.state[slot] == Releasing && r.done[slot])
  }

  /** Asking is what makes a retired slot idle. */
  function Asked(r: Ring, slot: nat): Ring
    requires slot < |r.state| == |r.done|
  {
    if IsConsumed(r, slot) then r.(state := r.state[slot := Idle]) else r
  }

  function Opened(fill: Fill, slots: nat, slotBytes: nat): Ring {
    Ring(fill, slotBytes, seq(slots, i => Frame(0, 0)), seq(slots, i => Idle), seq(slots, i => true), [], 0, 0, 0, true)
  }

  // ------------------------------------------------------------------ the code

  datatype AcquireOutcome = WrongMode | WouldWait | Ended | Got(slot: nat)

  datatype CommitOutcome = Done | NotThisMode | BadSlot | TooLarge | NotAcquired | InFlight

  datatype Taken = Taken(slot: nat, frame: Frame)

  class HostIngressRing {
    const fill: Fill
    const slotBytes: nat
    const frames: array<Frame>
    const state: array<SlotState>
    const done: array<bool>
    var ready: seq<nat>
    var acquired: int
    var committed: nat
    var released: nat
    var running: bool

    ghost predicate Valid()
      reads this
    {
      && frames.Length == state.Length == done.Length >= 1
      && forall i | 0 <= i < |ready| :: ready[i] < state.Length
    }

    ghost function View(): (r: Ring)
      requires Valid()
      reads this, frames, state, done
      ensures r.Shape()
    {
      Ring(fill, slotBytes, frames[..], state[..], done[..], ready, acquired, committed, released, running)
    }

    /** An empty ring is refused before this. */
    constructor (fill: Fill, slots: nat, slotBytes: nat)
      requires slots > 0 && slotBytes > 0
      ensures Valid() && View() == Opened(fill, slots, slotBytes)
      ensures fresh(frames) && fresh(state) && fresh(done)
    {
      this.fill, this.slotBytes := fill, slotBytes;
      frames := new Frame[slots](i => Frame(0, 0));
      state := new SlotState[slots](i => Idle);
      done := new bool[slots](i => true);
      ready, acquired, committed, released, running := [], 0, 0, 0, true;
    }

    /** acquire, up to the wait for the slot's upload event. */
    method Acquire() returns (outcome: AcquireOutcome)
      requires Valid() && acquired >= 0
      modifies this
      ensures Valid()
      ensures outcome.WrongMode? <==> fill.External?
      ensures outcome.WouldWait? <==> fill.Staged? && old(running) && !HasFree(old(View()))
      ensures outcome.Ended? <==> fill.Staged? && !old(running)
      ensures outcome.Got? <==> fill.Staged? && old(running) && old(acquired) - released < state.Length
      ensures if outcome.Got? then outcome.slot == old(acquired) % state.Length && View() == Acquired(old(View()))
              else View() == old(View())
    {
      if fill != Staged {
        return WrongMode;
      }
      if running && acquired - released >= state.Length {
        return WouldWait;
      }
      if !running {
        return Ended;
      }
      var slot := acquired % state.Length;
      acquired := acquired + 1;
      return Got(slot);
    }

    method Enqueue(slot: nat, f: Frame)
      requires Valid() && slot < state.Length
      modifies this, frames, state
      ensures Valid() && View() == Queued(old(View()), slot, f)
      ensures frames[slot] == f && state[slot] == Committed && ready == old(ready) + [slot]
    {
      frames[slot] := f;
      state[slot] := Committed;
      ready := ready + [slot];
      committed := committed + 1;
    }

    method Commit(slot: nat, f: Frame) returns (outcome: CommitOutcome)
      requires Valid()
      modifies this, frames, state
      ensures Valid()
      ensures outcome.Done? <==> fill.Staged? && slot < state.Length && f.bytes <= slotBytes
                                 && IsLastAcquired(old(View()), slot)
      ensures View() == if outcome.Done? then Queued(old(View()), slot, f) else old(View())
      ensures outcome.Done? ==> frames[slot] == f && ready == old(ready) + [slot] && committed == old(committed) + 1
      ensures !outcome.InFlight?
    {
      if fill != Staged {
        return NotThisMode;
      }
      if slot >= state.Length {
        return BadSlot;
      }
      if f.bytes > slotBytes {
        return TooLarge;
      }
      if acquired == committed || slot != (acquired - 1) % state.Length {
        return NotAcquired;
      }
      Enqueue(slot, f);
      return Done;
    }

    method Abandon(slot: nat) returns (outcome: CommitOutcome)
      requires Valid()
      modifies this
      ensures Valid()
      ensures outcome.Done? <==> fill.Staged? && IsLastAcquired(old(View()), slot)
      ensures View() == if outcome.Done? then Abandoned(old(View())) else old(View())
    {
      if fill != Staged {
        return NotThisMode;
      }
      if acquired == committed || slot != (acquired - 1) % state.Length {
        return NotAcquired;
      }
      acquired := acquired - 1;
      return Done;
    }

    method CommitExternal(slot: nat, f: Frame) returns (outcome: CommitOutcome)
      requires Valid()
      modifies this, frames, state
      ensures Valid()
      ensures outcome.Done? <==> fill.External? && slot < state.Length && f.bytes <= slotBytes
                                 && old(state[slot]) == Idle
      ensures outcome.InFlight? <==> fill.External? && slot < state.Length && f.bytes <= slotBytes
                                     && old(state[slot]) != Idle
      ensures View() == if outcome.Done? then Queued(old(View()), slot, f) else old(View())
      ensures outcome.Done? ==> frames[slot] == f && state[slot] == Committed && ready == old(ready) + [slot]
    {
      if fill != External {
        return NotThisMode;
      }
      if slot >= state.Length {
        return BadSlot;
      }
      if f.bytes > slotBytes {
        return TooLarge;
      }
      if state[slot] != Idle {
        return InFlight;
      }
      Enqueue(slot, f);
      return Done;
    }

    method SlotConsumed(slot: nat) returns (consumed: bool)
      requires Valid() && slot < state.Length
      modifies state
      ensures Valid() && consumed == IsConsumed(old(View()), slot) && View() == Asked(old(View()), slot)
      ensures consumed <==> old(state[slot]) == Idle || (old(state[slot]) == Releasing && done[slot])
      ensures state[slot] == if consumed then Idle else old(state[slot])
    {
      if state[slot] == Idle {
        return true;
      }
      if state[slot] != Releasing {
        return false;
      }
      if !done[slot] {
        return false;
      }
      state[slot] := Idle;
      return true;
    }

    /** pop's critical section. */
    method TakeReady() returns (taken: Option<Taken>)
      requires Valid()
      modifies this
      ensures Valid()
      ensures taken.None? <==> !old(running) || old(ready) == []
      ensures taken.None? ==> View() == old(View())
      ensures taken.Some? ==>
                && taken.value == Taken(old(ready[0]), old(frames[ready[0]]))
                && View() == Popped(old(View()))
    {
      if !running || ready == [] {
        return None;
      }
      var slot := ready[0];
      ready := ready[1..];
      return Some(Taken(slot, frames[slot]));
    }

    method Release(slot: nat)
      requires Valid() && slot < state.Length
      modifies this, state, done
      ensures Valid() && View() == Released(Recorded(old(View()), slot), slot)
      ensures !done[slot] && state[slot] == Releasing && released == old(released) + 1
    {
      done[slot] := false;
      state[slot] := Releasing;
      released := released + 1;
    }

    method Stop()
      requires Valid()
      modifies this
      ensures Valid() && View() == old(View()).(running := false)
    {
      running := false;
    }
  }
}
