/** The replay of one recorded image topic: each message is decoded, copied into a
    slot of the External ingress ring that is not held, and committed. */
module ReplaySource {
  import opened Options
  import opened Bytes
  import opened HostIngress
  import RosMessages
  import RosCodec

  datatype Outcome = NotStarted | Undecodable | NoSlot | Delivered(slot: nat)

  /** A slot's hold after reclaiming: given back if the ring says it is consumed. */
  predicate StillHeld(r: Ring, held: bool, slot: nat)
    requires slot < |r.state| == |r.done|
  {
    held && !IsConsumed(r, slot)
  }

  class ImageReplaySource {
    const ring: HostIngressRing
    const buffers: array2<byte>   // the ring's slots
    const held: array<bool>
    const bufferBytes: nat        // the size of the first frame
    var undecodable: nat
    var started: bool

    /** A slot that is not held is idle in the ring. */
    ghost predicate Valid()
      reads this, ring, ring.state, ring.frames, ring.done, held
    {
      && ring.Valid() && ring.fill.External? && held != ring.done
      && held.Length == ring.state.Length == ring.done.Length == buffers.Length0
      && bufferBytes <= ring.slotBytes == buffers.Length1
      && forall s | 0 <= s < held.Length && !held[s] :: ring.state[s] == Idle
    }

    /** Slots smaller than a frame are refused before this. */
    constructor (ring: HostIngressRing, buffers: array2<byte>, bufferBytes: nat)
      requires ring.Valid() && ring.fill.External? && bufferBytes <= ring.slotBytes == buffers.Length1
      requires buffers.Length0 == ring.state.Length == ring.done.Length
      requires forall s | 0 <= s < ring.state.Length :: ring.state[s] == Idle
      ensures Valid() && this.ring == ring && this.buffers == buffers && this.bufferBytes == bufferBytes
      ensures fresh(held) && started && undecodable == 0
    {
      this.ring, this.buffers, this.bufferBytes := ring, buffers, bufferBytes;
      held := new bool[ring.state.Length](i => false);
      undecodable, started := 0, true;
    }

    /** Asks about every held slot and gives back those consumed. */
    method Reclaim()
      requires Valid()
      modifies held, ring.state
      ensures Valid()
      ensures forall s | 0 <= s < held.Length :: held[s] == StillHeld(old(ring.View()), old(held[s]), s)
      ensures forall s | 0 <= s < held.Length ::
                ring.state[s] == if old(held[s]) && IsConsumed(old(ring.View()), s) then Idle else old(ring.state[s])
    {
      var slot := 0;
      while slot < held.Length
        invariant slot <= held.Length && Valid()
        invariant forall s | 0 <= s < slot :: held[s] == StillHeld(old(ring.View()), old(held[s]), s)
        invariant forall s | slot <= s < held.Length :: held[s] == old(held[s])
        invariant forall s | 0 <= s < held.Length ::
                    ring.state[s] == if s < slot && old(held[s]) && IsConsumed(old(ring.View()), s) then Idle
                                     else old(ring.state[s])
      {
        if held[slot] {
          var consumed := ring.SlotConsumed(slot);
          if consumed { held[slot] := false; }
        }
        slot := slot + 1;
      }
    }

    /** The first slot not held once the consumed ones are given back; `polls` is how
        often there is time to look. */
    method AcquireSlot(polls: nat) returns (slot: Option<nat>, waited: bool)
      requires Valid() && polls > 0
      modifies held, ring.state
      ensures Valid()
      ensures slot.Some? ==> slot.value < held.Length && !held[slot.value]
      ensures slot.None? <==> forall s | 0 <= s < held.Length :: StillHeld(old(ring.View()), old(held[s]), s)
      ensures slot.Some? ==> forall s | 0 <= s < slot.value :: StillHeld(old(ring.View()), old(held[s]), s)
    {
      var left := polls;
      waited := false;
      while true
        invariant 0 < left <= polls && Valid()
        invariant forall s | 0 <= s < held.Length ::
                    StillHeld(ring.View(), held[s], s) == StillHeld(old(ring.View()), old(held[s]), s)
        decreases left
      {
        Reclaim();
        var s := 0;
        while s < held.Length
          invariant s <= held.Length && forall k | 0 <= k < s :: held[k]
        {
          if !held[s] {
            return Some(s), waited;
          }
          s := s + 1;
        }
        if left == 1 {
          return None, waited;
        }
        left := left - 1;
        waited := true;
      }
    }

    method CopyIn(slot: nat, pixels: Buffer)
      requires slot < buffers.Length0 && |pixels| <= buffers.Length1
      modifies buffers
      ensures forall i, j | 0 <= i < buffers.Length0 && 0 <= j < buffers.Length1 ::
                buffers[i, j] == if i == slot && j < |pixels| then pixels[j] else old(buffers[i, j])
    {
      var k := 0;
      while k < |pixels|
        invariant k <= |pixels|
        invariant forall i, j | 0 <= i < buffers.Length0 && 0 <= j < buffers.Length1 ::
                    buffers[i, j] == if i == slot && j < k then pixels[j] else old(buffers[i, j])
      {
        buffers[slot, k] := pixels[k];
        k := k + 1;
      }
    }

    /** The copy and the commit, which cannot fail: the slot is idle. */
    method Deliver(slot: nat, stamp: nat, pixels: Buffer)
      requires Valid() && slot < held.Length && !held[slot] && |pixels| <= bufferBytes
      modifies held, buffers, ring, ring.state, ring.frames
      ensures Valid() && held[slot] && ring.state[slot] == Committed && ring.ready == old(ring.ready) + [slot]
      ensures ring.frames[slot] == Frame(stamp, |pixels|)
      ensures forall j | 0 <= j < |pixels| :: buffers[slot, j] == pixels[j]
    {
      CopyIn(slot, pixels);
      held[slot] := true;
      var committed := ring.CommitExternal(slot, Frame(stamp, |pixels|));
      assert committed.Done?;
    }

    /** on_message. `stamp` is the player's stamp of the message, not the one inside
        the image. */
    method OnMessage(data: Buffer, stamp: nat, polls: nat) returns (outcome: Outcome)
      requires Valid() && polls > 0
      modifies this, held, buffers, ring, ring.state, ring.frames
      ensures Valid()
      ensures outcome.NotStarted? <==> !old(started)
      ensures var image := RosMessages.DecodeImage(data);
              outcome.Undecodable? <==> old(started) && (image.None? || |image.value.1.pixels| > bufferBytes)
      ensures outcome.Undecodable? ==> undecodable == old(undecodable) + 1
      ensures outcome.Delivered? ==>
                var image := RosMessages.DecodeImage(data).value;
                var slot := outcome.slot;
                && slot < held.Length && held[slot] && ring.state[slot] == Committed
                && ring.ready == old(ring.ready) + [slot]
                && ring.frames[slot] == Frame(stamp, |image.1.pixels|)
                && forall j | 0 <= j < |image.1.pixels| :: buffers[slot, j] == image.1.pixels[j]
      ensures !outcome.Delivered? ==> ring.ready == old(ring.ready)
    {
      hide RosMessages.DecodeImage;
      if !started {
        return NotStarted;
      }
      var image := RosCodec.DecodeImageMessage(data);
      if image.None? || |image.value.1.pixels| > bufferBytes {
        undecodable := undecodable + 1;
        return Undecodable;
      }
      var slot, waited := AcquireSlot(polls);
      if slot.None? {
        return NoSlot;
      }
      Deliver(slot.value, stamp, image.value.1.pixels);
      return Delivered(slot.value);
    }
  }
}
