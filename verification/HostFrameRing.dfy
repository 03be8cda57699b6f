/** The tap ring: one producer publishes camera frames, every CPU consumer takes
    the newest one and holds it for as long as it likes. */
module HostFrameRing {
  import opened Options
  import opened Bytes

  datatype Frame = Frame(stamp: nat, bytes: nat, seqNo: nat)

  /** The store, and each consumer's cursor. Counters are integers here; that they
      never go below zero is proved, not assumed. */
  datatype Ring = Ring(
    frameBytes: nat, block: seq<Buffer>, frames: seq<Frame>, holds: seq<int>,
    latest: Option<nat>, latestSeq: nat, sequence: nat, inUse: int, peak: int, running: bool,
    publishing: bool, published: nat, drops: nat, cursors: seq<nat>, skipped: seq<int>)
  {
    ghost predicate Shape() {
      && |block| == |frames| == |holds| >= 2 && |cursors| == |skipped|
      && (latest.Some? ==> latest.value < |holds|)
      && forall i | 0 <= i < |block| :: |block[i]| == frameBytes
    }

    /** Nobody holds the slot and it is not the newest. */
    predicate IsFree(i: nat)
      requires i < |holds|
    {
      holds[i] == 0 && latest != Some(i)
    }
  }

  // ------------------------------------------------------ the critical sections

  /** The first free slot from `i` on, if there is one. */
  function FirstFree(r: Ring, i: nat): (slot: Option<nat>)
    requires i <= |r.holds|
    ensures slot.Some? ==> i <= slot.value < |r.holds| && r.IsFree(slot.value)
                           && forall k: nat | i <= k < slot.value :: !r.IsFree(k)
    ensures slot.None? ==> forall k: nat | i <= k < |r.holds| :: !r.IsFree(k)
    decreases |r.holds| - i
  {
    if i == |r.holds| then None else if r.IsFree(i) then Some(i) else FirstFree(r, i + 1)
  }

  lemma SameFree(r: Ring, q: Ring, i: nat)
    requires r.holds == q.holds && r.latest == q.latest && i <= |r.holds|
    ensures FirstFree(r, i) == FirstFree(q, i)
    decreases |r.holds| - i
  {
  }

  function Higher(x: int, y: int): int {
    if x > y then x else y
  }

  function Began(r: Ring): Ring {
    r.(publishing := true)
  }

  function Dropped(r: Ring): Ring {
    r.(publishing := true, drops := r.drops + 1)
  }

  /** The slot is the producer's for the duration of the copy. */
  function Reserved(r: Ring, slot: nat): Ring
    requires slot < |r.holds|
  {
    r.(publishing := true, holds := r.holds[slot := 1], inUse := r.inUse + 1, peak := Higher(r.inUse + 1, r.peak))
  }

  /** A frame larger than a slot: the reservation is taken back. */
  function Refused(r: Ring, slot: nat): Ring
    requires slot < |r.holds|
  {
    r.(holds := r.holds[slot := 0], inUse := r.inUse - 1)
  }

  /** One byte of the copy. */
  function Wrote(r: Ring, slot: nat, at: nat, b: byte): Ring
    requires slot < |r.block| && at < |r.block[slot]|
  {
    var row: Buffer := r.block[slot][at := b];
    r.(block := r.block[slot := row])
  }

  /** The whole copy. */
  function Stored(r: Ring, slot: nat, data: Buffer): Ring
    requires slot < |r.block| && |data| <= |r.block[slot]|
  {
    r.(block := r.block[slot := Copied(r.block[slot], 0, data)])
  }

  /** The slot becomes the newest frame; the one that was goes free unless held. */
  function Finalised(r: Ring, slot: nat, stamp: nat, bytes: nat): Ring
    requires r.Shape() && slot < |r.holds|
  {
    var holds := r.holds[slot := r.holds[slot] - 1];
    r.(frames := r.frames[slot := Frame(stamp, bytes, r.sequence + 1)], holds := holds,
       latest := Some(slot), latestSeq := r.sequence + 1, sequence := r.sequence + 1,
       inUse := if r.latest.Some? && holds[r.latest.value] == 0 then r.inUse - 1 else r.inUse,
       published := r.published + 1)
  }

  /** A whole publish that nothing interrupts. */
  function Publication(r: Ring, data: Buffer, stamp: nat): Ring
    requires r.Shape()
  {
    if !r.running then Began(r)
    else
      match FirstFree(r, 0)
      case None => Dropped(r)
      case Some(slot) =>
        if |data| > r.frameBytes then Refused(Reserved(r, slot), slot)
        else Finalised(Stored(Reserved(r, slot), slot, data), slot, stamp, |data|)
  }

  /** A consumer has nothing newer to take and waits. */
  predicate Waits(r: Ring, consumer: nat)
    requires consumer < |r.cursors|
  {
    r.running && r.latestSeq <= r.cursors[consumer]
  }

  function Acquired(r: Ring, consumer: nat): Ring
    requires r.Shape() && consumer < |r.cursors| && r.latest.Some?
  {
    var slot := r.latest.value;
    r.(holds := r.holds[slot := r.holds[slot] + 1],
       skipped := r.skipped[consumer := r.skipped[consumer] + (r.latestSeq - r.cursors[consumer] - 1)],
       cursors := r.cursors[consumer := r.latestSeq])
  }

  function Released(r: Ring, slot: nat): Ring
    requires slot < |r.holds|
  {
    if r.holds[slot] <= 0 then r
    else
      var holds := r.holds[slot := r.holds[slot] - 1];
      r.(holds := holds, inUse := if holds[slot] == 0 && r.latest != Some(slot) then r.inUse - 1 else r.inUse)
  }

  function Joined(r: Ring): Ring {
    if r.publishing then r else r.(cursors := r.cursors + [0], skipped := r.skipped + [0])
  }

  function Empty(slots: nat, frameBytes: nat): Ring {
    Ring(frameBytes, seq(slots, i => Zeros(frameBytes)), seq(slots, i => Frame(0, frameBytes, 0)),
         seq(slots, i => 0), None, 0, 0, 0, 0, true, false, 0, 0, [], [])
  }

  // ------------------------------------------------------------------ the code

  datatype PublishOutcome = Done | NoRoom | Stopped | TooLarge

  datatype AcquireOutcome = Unknown | WouldWait | Ended | Took(slot: nat)

  class Tap {
    const frameBytes: nat
    const slots: nat
    const block: array2<byte>
    const frames: array<Frame>
    const holds: array<int>
    var latest: Option<nat>
    var latestSeq: nat
    var sequence: nat
    var inUse: int
    var peak: int
    var running: bool
    var publishing: bool
    var published: nat
    var drops: nat
    var cursors: seq<nat>
    var skipped: seq<int>

    ghost function Row(slot: nat): Buffer
      requires slot < block.Length0 && block.Length1 == frameBytes
      reads block
    {
      seq(frameBytes, j requires 0 <= j < frameBytes reads block => block[slot, j])
    }

    ghost function Rows(): seq<Buffer>
      requires block.Length1 == frameBytes && block.Length0 == slots
      reads block
    {
      seq(slots, i requires 0 <= i < slots && block.Length1 == frameBytes && block.Length0 == slots
                   reads block => Row(i))
    }

    ghost predicate Valid()
      reads this, block, frames, holds
    {
      && slots >= 2 && block.Length0 == slots && block.Length1 == frameBytes
      && frames.Length == holds.Length == slots && |cursors| == |skipped|
      && (latest.Some? ==> latest.value < slots) && (latestSeq > 0 ==> latest.Some?)
    }

    ghost function View(): (r: Ring)
      requires Valid()
      reads this, block, frames, holds
      ensures r.Shape()
    {
      Ring(frameBytes, Rows(), frames[..], holds[..], latest, latestSeq, sequence, inUse, peak, running,
           publishing, published, drops, cursors, skipped)
    }

    /** Fewer than two slots, or slots without room, are refused before this. */
    constructor (slots: nat, frameBytes: nat)
      requires slots >= 2 && frameBytes > 0
      ensures Valid() && View() == Empty(slots, frameBytes)
      ensures fresh(block) && fresh(frames) && fresh(holds)
    {
      this.slots, this.frameBytes := slots, frameBytes;
      block := new byte[slots, frameBytes]((i, j) => 0);
      frames := new Frame[slots](i => Frame(0, frameBytes, 0));
      holds := new int[slots](i => 0);
      latest, latestSeq, sequence, inUse, peak := None, 0, 0, 0, 0;
      running, publishing, published, drops, cursors, skipped := true, false, 0, 0, [], [];
      new;
      assert forall i | 0 <= i < slots :: Row(i) == Zeros(frameBytes);
      assert Rows() == Empty(slots, frameBytes).block;
    }

    /** None once publishing has begun. */
    method AddConsumer() returns (id: Option<nat>)
      requires Valid()
      modifies this
      ensures Valid() && View() == Joined(old(View()))
      ensures id == if old(publishing) then None else Some(old(|cursors|))
    {
      if publishing {
        return None;
      }
      cursors := cursors + [0];
      skipped := skipped + [0];
      return Some(|cursors| - 1);
    }

    /** The search for a free slot. */
    method FindFree() returns (slot: Option<nat>)
      requires Valid()
      ensures slot == FirstFree(View(), 0)
    {
      var i := 0;
      while i < slots
        invariant i <= slots && FirstFree(View(), i) == FirstFree(View(), 0)
      {
        if holds[i] == 0 && latest != Some(i) {
          return Some(i);
        }
        i := i + 1;
      }
      return None;
    }

    /** publish's first critical section. */
    method Reserve() returns (slot: Option<nat>)
      requires Valid()
      modifies this, holds
      ensures Valid()
      ensures !old(running) ==> slot.None? && View() == Began(old(View()))
      ensures old(running) ==>
                && slot == FirstFree(old(View()), 0)
                && View() == if slot.None? then Dropped(old(View())) else Reserved(old(View()), slot.value)
    {
      publishing := true;
      if !running {
        return None;
      }
      slot := FindFree();
      assert FirstFree(View(), 0) == FirstFree(old(View()), 0) by { SameFree(View(), old(View()), 0); }
      if slot.None? {
        drops := drops + 1;
        return;
      }
      holds[slot.value] := 1;
      inUse := inUse + 1;
      if inUse > peak { peak := inUse; }
    }

    /** memcpy into the slot, outside the lock. */
    method Copy(slot: nat, data: Buffer)
      requires Valid() && slot < slots && |data| <= frameBytes
      modifies block
      ensures Valid() && View() == Stored(old(View()), slot, data)
    {
      var k := 0;
      while k < |data|
        invariant k <= |data|
        invariant forall i, j | 0 <= i < slots && 0 <= j < frameBytes ::
                    block[i, j] == if i == slot && j < k then data[j] else old(block[i, j])
      {
        block[slot, k] := data[k];
        k := k + 1;
      }
      assert Row(slot) == Copied(old(Row(slot)), 0, data);
      assert forall i | 0 <= i < slots && i != slot :: Row(i) == old(Row(i));
    }

    method Refuse(slot: nat)
      requires Valid() && slot < slots
      modifies this, holds
      ensures Valid() && View() == Refused(old(View()), slot)
    {
      holds[slot] := 0;
      inUse := inUse - 1;
    }

    /** publish's last critical section, and its counter. */
    method Finalise(slot: nat, stamp: nat, bytes: nat)
      requires Valid() && slot < slots
      modifies this, frames, holds
      ensures Valid() && View() == Finalised(old(View()), slot, stamp, bytes)
    {
      hide Rows;
      sequence := sequence + 1;
      frames[slot] := Frame(stamp, bytes, sequence);
      var previous := latest;
      latest := Some(slot);
      latestSeq := sequence;
      holds[slot] := holds[slot] - 1;
      if previous.Some? && holds[previous.value] == 0 {
        inUse := inUse - 1;
      }
      published := published + 1;
      assert holds[..] == old(holds[..])[slot := old(holds[slot]) - 1];
      assert frames[..] == old(frames[..])[slot := Frame(stamp, bytes, sequence)];
    }

    method Publish(data: Buffer, stamp: nat) returns (outcome: PublishOutcome)
      requires Valid()
      modifies this, block, frames, holds
      ensures Valid()
      ensures View() == Publication(old(View()), data, stamp)
      ensures outcome.Stopped? <==> !old(running)
      ensures outcome.NoRoom? <==> old(running) && forall i: nat | i < slots :: !old(View()).IsFree(i)
      ensures outcome.TooLarge? ==> |data| > frameBytes
      ensures outcome.Done? ==>
                latest.Some? && frames[latest.value] == Frame(stamp, |data|, old(sequence) + 1)
                && |data| <= frameBytes && Row(latest.value)[..|data|] == data
    {
      var slot := Reserve();
      if slot.None? {
        return if running then NoRoom else Stopped;
      }
      if |data| > frameBytes {
        Refuse(slot.value);
        return TooLarge;
      }
      Copy(slot.value, data);
      ghost var stored := View();
      Finalise(slot.value, stamp, |data|);
      assert Rows()[slot.value] == stored.block[slot.value];
      return Done;
    }

    method AcquireLatest(consumer: nat) returns (outcome: AcquireOutcome)
      requires Valid()
      modifies this, holds
      ensures Valid()
      ensures outcome.Unknown? <==> consumer >= |old(cursors)|
      ensures outcome.WouldWait? <==> consumer < |old(cursors)| && Waits(old(View()), consumer)
      ensures outcome.Ended? <==> consumer < |old(cursors)| && !old(running)
      ensures if outcome.Took? then old(latest) == Some(outcome.slot) && View() == Acquired(old(View()), consumer)
              else View() == old(View())
      ensures outcome.Took? <==> consumer < |old(cursors)| && old(running) && old(latestSeq) > old(cursors)[consumer]
      ensures outcome.Took? ==>
                && holds[outcome.slot] == old(holds[latest.value]) + 1 && cursors[consumer] == old(latestSeq)
                && skipped[consumer] == old(skipped)[consumer] + old(latestSeq) - old(cursors)[consumer] - 1
    {
      if consumer >= |cursors| {
        return Unknown;
      }
      if running && latestSeq <= cursors[consumer] {
        return WouldWait;
      }
      if !running {
        return Ended;
      }
      var slot := latest.value;
      holds[slot] := holds[slot] + 1;
      skipped := skipped[consumer := skipped[consumer] + (latestSeq - cursors[consumer] - 1)];
      cursors := cursors[consumer := latestSeq];
      return Took(slot);
    }

    /** The deleter of a frame handed out. */
    method Release(slot: nat)
      requires Valid() && slot < slots
      modifies this, holds
      ensures Valid() && View() == Released(old(View()), slot)
    {
      if holds[slot] > 0 {
        holds[slot] := holds[slot] - 1;
        if holds[slot] == 0 && latest != Some(slot) {
          inUse := inUse - 1;
        }
      }
    }

    method Stop()
      requires Valid()
      modifies this
      ensures Valid() && View() == old(View()).(running := false)
    {
      running := false;
    }
  }
}
