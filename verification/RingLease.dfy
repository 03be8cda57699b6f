/** Leases as objects: a hold on a slot is moved from lease to lease and given back
    exactly once. */
module RingLease {
  import opened Options
  import opened DeviceRing
  import opened DeviceRingRuns
  import opened DeviceRingSafety
  import opened DeviceRingBuffer

  /** The ring behind a lease, if it has one. */
  ghost function RingOf(ring: DeviceRingBuffer?): set<object> {
    if ring == null then {} else ring.Parts()
  }

  class ReadLease {
    var ring: DeviceRingBuffer?
    var slot: nat
    var seqNo: nat
    var consumer: nat
    var stamp: nat
    ghost var id: nat

    /** A lease with a ring is a hold on it; one without is spent. */
    ghost predicate Valid()
      reads this, RingOf(ring)
    {
      ring != null ==>
        && ring.Live() && id in ring.lessees && ring.lessees[id].consumer == consumer
        && ring.lessees[id].stage.Leased? && ring.lessees[id].stage.slot == slot
        && ring.lessees[id].stage.seqNo == seqNo && ring.lessees[id].stage.stamp == stamp
    }

    constructor ()
      ensures Valid() && ring == null
    {
      ring, slot, seqNo, consumer, stamp, id := null, 0, 0, 0, 0, 0;
    }

    /** What lease_latest and lease_by_timestamp return. */
    constructor Hold(ring: DeviceRingBuffer, slot: nat, seqNo: nat, consumer: nat, stamp: nat, ghost id: nat)
      requires ring.Live() && id in ring.lessees && ring.lessees[id].consumer == consumer
      requires ring.lessees[id].stage.Leased? && ring.lessees[id].stage.slot == slot
      requires ring.lessees[id].stage.seqNo == seqNo && ring.lessees[id].stage.stamp == stamp
      ensures Valid() && this.ring == ring && this.id == id && this.slot == slot && this.stamp == stamp
    {
      this.ring, this.slot, this.seqNo, this.consumer, this.stamp, this.id := ring, slot, seqNo, consumer, stamp, id;
    }

    /** The move constructor. */
    constructor Move(other: ReadLease)
      requires other.Valid()
      modifies other`ring
      ensures Valid() && other.ring == null && ring == old(other.ring) && id == old(other.id)
      ensures slot == old(other.slot) && stamp == old(other.stamp)
    {
      ring, slot, seqNo := other.ring, other.slot, other.seqNo;
      consumer, stamp, id := other.consumer, other.stamp, other.id;
      new;
      other.ring := null;
    }

    /** drop_hold, and the destructor: gives the hold back unless it already has. */
    method DropHold()
      requires Valid()
      modifies this`ring, RingOf(ring)
      ensures Valid() && ring == null
      ensures old(ring) != null ==> old(ring).Live() && old(ring).View() == AfterDrop(old(ring.View()), old(id))
    {
      if ring == null {
        return;
      }
      var held := ring;
      ring := null;
      ghost var before := held.View();
      LeasesExclude(held.config, before, id, slot);
      held.DropSlotHold(id, slot, consumer);
      ReachesOn(held.config, before, held.View());
    }

    /** Move assignment: this lease's hold is given back, the other's comes here. */
    method MoveFrom(other: ReadLease)
      requires Valid() && other.Valid()
      requires this != other && ring != null && ring == other.ring ==> id != other.id
      requires ring != null && other.ring != null && ring != other.ring ==> ring.Parts() !! other.ring.Parts()
      modifies this, other`ring, RingOf(ring)
      ensures this == other ==> Valid() && ring == old(ring) && (ring != null ==> ring.View() == old(ring.View()))
      ensures this != other ==>
                && Valid() && other.ring == null && ring == old(other.ring) && id == old(other.id)
                && slot == old(other.slot) && stamp == old(other.stamp)
                && (old(ring) != null ==> old(ring).View() == AfterDrop(old(ring.View()), old(id)))
      ensures this != other && ring != null && ring != old(ring) ==> ring.View() == old(other.ring.View())
    {
      hide Reachable, Shape;
      if this != other {
        DropHold();
        ring, slot, seqNo := other.ring, other.slot, other.seqNo;
        consumer, stamp, id := other.consumer, other.stamp, other.id;
        other.ring := null;
      }
    }
  }

  class WriteLease {
    var ring: DeviceRingBuffer?
    var slot: nat

    ghost predicate Valid()
      reads this, RingOf(ring)
    {
      ring != null ==> ring.Live() && ring.producer == Writing(slot)
    }

    constructor Hold(ring: DeviceRingBuffer, slot: nat)
      requires ring.Live() && ring.producer == Writing(slot)
      ensures Valid() && this.ring == ring && this.slot == slot
    {
      this.ring, this.slot := ring, slot;
    }

    constructor Move(other: WriteLease)
      requires other.Valid()
      modifies other`ring
      ensures Valid() && other.ring == null && ring == old(other.ring) && slot == old(other.slot)
    {
      ring, slot := other.ring, other.slot;
      new;
      other.ring := null;
    }

    /** publish: false if the lease is spent. */
    method Publish(stamp: nat) returns (ok: bool)
      requires Valid()
      modifies this`ring, RingOf(ring)
      ensures Valid() && ring == null && ok == (old(ring) != null)
      ensures ok ==> old(ring).Live() && old(ring).View() == Published(old(ring.View()), slot, stamp)
    {
      if ring == null {
        return false;
      }
      var held := ring;
      ghost var before := held.View();
      held.PublishSlot(slot, stamp);
      ReachesOn(held.config, before, held.View());
      ring := null;
      return true;
    }

    /** The destructor: an unpublished slot is abandoned, once. */
    method Destroy()
      requires Valid()
      modifies this`ring, RingOf(ring)
      ensures Valid() && ring == null
      ensures old(ring) != null ==> old(ring).Live() && old(ring).View() == Abandoned(old(ring.View()), slot)
    {
      if ring != null {
        var held := ring;
        ghost var before := held.View();
        held.AbandonSlot(slot);
        ReachesOn(held.config, before, held.View());
        ring := null;
      }
    }

    /** Move assignment: this lease's slot is abandoned. One ring has one write lease
        at a time, so two leases are of two rings. */
    method MoveFrom(other: WriteLease)
      requires Valid() && other.Valid()
      requires this != other && ring != null && other.ring != null ==> ring.Parts() !! other.ring.Parts()
      modifies this, other`ring, RingOf(ring)
      ensures this == other ==> Valid() && ring == old(ring) && (ring != null ==> ring.View() == old(ring.View()))
      ensures this != other ==>
                && Valid() && other.ring == null && ring == old(other.ring) && slot == old(other.slot)
                && (old(ring) != null ==> old(ring).View() == Abandoned(old(ring.View()), old(slot)))
                && (ring != null ==> ring.View() == old(other.ring.View()))
    {
      hide Reachable, Shape;
      if this != other {
        Destroy();
        ring, slot := other.ring, other.slot;
        other.ring := null;
      }
    }
  }
}
