/** Runs of a Staged ingress ring: one producer with at most one slot acquired, a
    consumer that pops, uploads and releases in order, and a GPU that retires
    uploads when it pleases. */
module StagedRuns {
  import opened Options
  import opened RingArithmetic
  import opened HostIngress

  datatype Producer =
    | Free
    | Syncing(slot: nat)   // acquire: waiting for the slot's upload event
    | Holding(slot: nat)

  /** Frames are numbered as they are committed. History: how many were popped,
      which frame's upload each slot's event describes, which uploads have
      retired. `releasing`: the event is recorded, the slot not yet given back. */
  datatype Run = Run(ring: Ring, producer: Producer, pops: nat, releasing: bool, last: seq<Option<nat>>,
                     retired: set<nat>)

  datatype Action =
    | Acquire
    | Sync
    | Commit(frame: Frame)
    | Abandon
    | Pop
    | Record
    | Release
    | GpuDone(slot: nat)
    | Stop

  function Start(slots: nat, slotBytes: nat): Run {
    Run(Opened(Staged, slots, slotBytes), Free, 0, false, seq(slots, i => None), {})
  }

  function Slot(k: nat, n: nat): (slot: nat)
    requires n > 0
    ensures slot < n
  {
    k % n
  }

  ghost predicate Shape(r: Run) {
    && r.ring.Shape() && r.ring.acquired >= 0 && |r.last| == |r.ring.state|
    && (!r.producer.Free? ==> r.producer.slot < |r.ring.state|)
  }

  ghost function Next(r: Run, a: Action): Run
    requires Shape(r)
  {
    var n := |r.ring.state|;
    match a
    case Acquire =>
      if !r.producer.Free? || !r.ring.running || !HasFree(r.ring) then r
      else r.(ring := Acquired(r.ring), producer := Syncing(Slot(r.ring.acquired, n)))
    case Sync =>
      if r.producer.Syncing? && r.ring.done[r.producer.slot] then r.(producer := Holding(r.producer.slot)) else r
    case Commit(f) =>
      if !r.producer.Holding? || f.bytes > r.ring.slotBytes then r   // too large: throws
      else r.(ring := Queued(r.ring, r.producer.slot, f), producer := Free)
    case Abandon =>
      if !r.producer.Holding? then r else r.(ring := Abandoned(r.ring), producer := Free)
    case Pop =>
      if !r.ring.running || r.ring.ready == [] then r else r.(ring := Popped(r.ring), pops := r.pops + 1)
    case Record =>
      if r.releasing || r.ring.released >= r.pops then r
      else
        var slot := Slot(r.ring.released, n);
        r.(ring := Recorded(r.ring, slot), releasing := true, last := r.last[slot := Some(r.ring.released)])
    case Release =>
      if !r.releasing then r
      else r.(ring := Released(r.ring, Slot(r.ring.released, n)), releasing := false)
    case GpuDone(slot) =>
      if slot >= n then r
      else
        r.(ring := r.ring.(done := r.ring.done[slot := true]),
           retired := if r.last[slot].Some? then r.retired + {r.last[slot].value} else r.retired)
    case Stop => r.(ring := r.ring.(running := false))
  }

  // ------------------------------------------------------- what every run keeps

  ghost predicate CountersOk(r: Run)
    requires Shape(r)
  {
    var n := |r.ring.state|;
    && r.ring.released <= r.pops <= r.ring.committed
    && r.ring.acquired == r.ring.committed + (if r.producer.Free? then 0 else 1)
    && r.ring.acquired - r.ring.released <= n
    && (!r.producer.Free? ==> r.producer.slot == Slot(r.ring.committed, n))
    && (r.releasing ==> r.ring.released < r.pops)
  }

  /** ready_ is the committed frames not yet popped. */
  ghost predicate ReadyOk(r: Run)
    requires Shape(r)
  {
    && |r.ring.ready| == r.ring.committed - r.pops
    && forall i: nat | i < |r.ring.ready| :: r.ring.ready[i] == Slot(r.pops + i, |r.ring.state|)
  }

  function RecordedCount(r: Run): nat {
    r.ring.released + if r.releasing then 1 else 0
  }

  /** Each slot's event describes the last upload from it. */
  ghost predicate EventsOk(r: Run)
    requires Shape(r)
  {
    var n := |r.ring.state|;
    && (forall k: nat | RecordedCount(r) - n <= k < RecordedCount(r) :: r.last[Slot(k, n)] == Some(k))
    && (forall s: nat | s < n && r.ring.done[s] && r.last[s].Some? :: r.last[s].value in r.retired)
  }

  /** A slot acquired again has no upload running. */
  ghost predicate RetiredOk(r: Run)
    requires Shape(r)
  {
    forall k: nat | k + |r.ring.state| < r.ring.acquired - (if r.producer.Syncing? then 1 else 0) :: k in r.retired
  }

  ghost predicate Inv(r: Run) {
    Shape(r) && CountersOk(r) && ReadyOk(r) && EventsOk(r) && RetiredOk(r)
  }

  lemma StartInv(slots: nat, slotBytes: nat)
    requires slots > 0
    ensures Inv(Start(slots, slotBytes))
  {
  }

  lemma SlotApart(i: nat, j: nat, n: nat)
    requires n > 0 && i < j < i + n
    ensures Slot(i, n) != Slot(j, n)
  {
    RingApart(i, j, n);
  }

  lemma SlotPeriod(k: nat, n: nat)
    requires n > 0
    ensures Slot(k + n, n) == Slot(k, n)
  {
    DivMod(k, n);
    assert (k / n + 1) * n == k / n * n + n;
    ModIs(k + n, k / n + 1, k % n, n);
  }

  lemma SyncRetired(r: Run)
    requires Inv(r) && r.producer.Syncing? && r.ring.done[r.producer.slot]
    ensures RetiredOk(Next(r, Sync))
  {
    var n := |r.ring.state|;
    if r.ring.acquired > n {
      var k: nat := r.ring.acquired - 1 - n;
      SlotPeriod(k, n);
      assert r.last[Slot(k, n)] == Some(k);
    }
  }

  lemma RecordEvents(r: Run)
    requires Shape(r) && CountersOk(r) && EventsOk(r) && !r.releasing && r.ring.released < r.pops
    ensures EventsOk(Next(r, Record))
  {
    var n := |r.ring.state|;
    var u := Next(r, Record);
    forall k: nat | RecordedCount(u) - n <= k < RecordedCount(u) ensures u.last[Slot(k, n)] == Some(k) {
      if k < r.ring.released { SlotApart(k, r.ring.released, n); }
    }
  }

  lemma NextShape(r: Run, a: Action)
    requires Shape(r) && CountersOk(r)
    ensures Shape(Next(r, a))
  {
    hide Slot;
  }

  lemma NextCounters(r: Run, a: Action)
    requires Shape(r) && CountersOk(r) && ReadyOk(r) && Shape(Next(r, a))
    ensures CountersOk(Next(r, a))
  {
    hide Slot;
  }

  lemma NextReady(r: Run, a: Action)
    requires Shape(r) && CountersOk(r) && ReadyOk(r) && Shape(Next(r, a))
    ensures ReadyOk(Next(r, a))
  {
    hide Slot;
  }

  lemma NextEvents(r: Run, a: Action)
    requires Shape(r) && CountersOk(r) && EventsOk(r) && Shape(Next(r, a))
    ensures EventsOk(Next(r, a))
  {
    if a == Record && !r.releasing && r.ring.released < r.pops { RecordEvents(r); }
    hide Slot;
  }

  lemma NextRetired(r: Run, a: Action)
    requires Inv(r) && Shape(Next(r, a))
    ensures RetiredOk(Next(r, a))
  {
    if a == Sync && r.producer.Syncing? && r.ring.done[r.producer.slot] { SyncRetired(r); }
    hide Slot, ReadyOk, EventsOk;
  }

  lemma NextKeeps(r: Run, a: Action)
    requires Inv(r)
    ensures Inv(Next(r, a))
  {
    hide Shape, CountersOk, ReadyOk, EventsOk, RetiredOk, Next;
    NextShape(r, a);
    NextCounters(r, a);
    NextReady(r, a);
    NextEvents(r, a);
    NextRetired(r, a);
  }

  // ------------------------------------------------------------ main theorems

  ghost function Runs(slots: nat, slotBytes: nat, acts: seq<Action>): (r: Run)
    requires slots > 0
    ensures Shape(r)
    decreases |acts|, 0
  {
    if acts == [] then
      StartInv(slots, slotBytes);
      Start(slots, slotBytes)
    else
      var before := Runs(slots, slotBytes, acts[..|acts| - 1]);
      RunsInv(slots, slotBytes, acts[..|acts| - 1]);
      NextKeeps(before, acts[|acts| - 1]);
      Next(before, acts[|acts| - 1])
  }

  lemma {:induction false} RunsInv(slots: nat, slotBytes: nat, acts: seq<Action>)
    requires slots > 0
    ensures Inv(Runs(slots, slotBytes, acts))
    decreases |acts|, 1
  {
    hide Inv, Next;
    if acts == [] {
      StartInv(slots, slotBytes);
    } else {
      var before := acts[..|acts| - 1];
      RunsInv(slots, slotBytes, before);
      NextKeeps(Runs(slots, slotBytes, before), acts[|acts| - 1]);
    }
  }

  /** The ring is there to be filled: in every run the producer gets on with an acquire
      exactly if the ring runs and fewer frames than it has slots are committed and not
      given back; and the slot is then its own as soon as that slot's upload is over. */
  lemma AcquiresWhileFree(slots: nat, slotBytes: nat, acts: seq<Action>)
    requires slots > 0 && Runs(slots, slotBytes, acts).producer.Free?
    ensures var r := Runs(slots, slotBytes, acts);
            var u := Next(r, Acquire);
            && (u.producer.Syncing? <==> r.ring.running && r.ring.committed - r.ring.released < slots)
            && (u.producer.Syncing? ==>
                  && u.producer.slot == r.ring.committed % slots && Shape(u)
                  && (Next(u, Sync).producer.Holding? <==> r.ring.done[u.producer.slot]))
  {
    RunsInv(slots, slotBytes, acts);
    SlotsStay(slots, slotBytes, acts);
    var r := Runs(slots, slotBytes, acts);
    assert CountersOk(r);
    hide Runs, ReadyOk, EventsOk, RetiredOk;
  }

  lemma {:induction false} SlotsStay(slots: nat, slotBytes: nat, acts: seq<Action>)
    requires slots > 0
    ensures |Runs(slots, slotBytes, acts).ring.state| == slots
  {
    hide Next, Inv;
    if acts != [] {
      var before := acts[..|acts| - 1];
      SlotsStay(slots, slotBytes, before);
      NextSlots(Runs(slots, slotBytes, before), acts[|acts| - 1]);
    }
  }

  lemma NextSlots(r: Run, a: Action)
    requires Shape(r)
    ensures |Next(r, a).ring.state| == |r.ring.state|
  {
  }

  /** The slot acquire returns is in nobody's hands: every frame ever committed in
      it has been popped and released, and its upload has retired. */
  lemma AcquiredSlotIsFree(slots: nat, slotBytes: nat, acts: seq<Action>, k: nat)
    requires slots > 0
    requires var r := Runs(slots, slotBytes, acts);
             r.producer.Holding? && k < r.ring.committed && Slot(k, |r.ring.state|) == r.producer.slot
    ensures var r := Runs(slots, slotBytes, acts); k < r.ring.released && k in r.retired
  {
    RunsInv(slots, slotBytes, acts);
    var r := Runs(slots, slotBytes, acts);
    if k + |r.ring.state| > r.ring.committed { SlotApart(k, r.ring.committed, |r.ring.state|); }
  }

  /** The queue is exactly the slots of the committed frames not yet popped, oldest
      first, across any mix of commits and abandons. */
  lemma ReadyIsCommittedUnpopped(slots: nat, slotBytes: nat, acts: seq<Action>, i: nat)
    requires slots > 0
    ensures var r := Runs(slots, slotBytes, acts);
            && |r.ring.ready| == r.ring.committed - r.pops
            && (i < |r.ring.ready| ==> r.ring.ready[i] == Slot(r.pops + i, |r.ring.state|))
  {
    RunsInv(slots, slotBytes, acts);
    hide Slot, Runs, CountersOk, EventsOk, RetiredOk;
    assert ReadyOk(Runs(slots, slotBytes, acts));
  }

  /** commit and abandon accept the slot being filled, and nothing else. */
  lemma CommitAcceptsOutstanding(slots: nat, slotBytes: nat, acts: seq<Action>, slot: nat)
    requires slots > 0
    ensures var r := Runs(slots, slotBytes, acts);
            IsLastAcquired(r.ring, slot) <==> !r.producer.Free? && slot == r.producer.slot
  {
    RunsInv(slots, slotBytes, acts);
    var r := Runs(slots, slotBytes, acts);
    assert CountersOk(r);
    hide Runs, ReadyOk, EventsOk, RetiredOk;
  }

  // ----------------------------------------------- more than one slot acquired

  /** commit, called for one slot again and again; None once it is refused. */
  ghost function CommitAll(r: Ring, slot: nat, frames: seq<Frame>): (u: Option<Ring>)
    requires r.Shape() && slot < |r.state|
    ensures u.Some? ==> u.value.Shape() && |u.value.state| == |r.state|
    decreases |frames|
  {
    if frames == [] then Some(r)
    else
      var before := CommitAll(r, slot, frames[..|frames| - 1]);
      if before.None? || !IsLastAcquired(before.value, slot) then None
      else Some(Queued(before.value, slot, frames[|frames| - 1]))
  }

  function Repeat(slot: nat, n: nat): (s: seq<nat>) {
    seq(n, i => slot)
  }

  /** The slot acquired last is accepted once for every slot that is outstanding: a
      second commit of it is refused exactly if it was the only one. Each commit
      queues it for the consumer, though it was filled once. */
  lemma {:induction false} AcceptedOncePerOutstanding(r: Ring, slot: nat, frames: seq<Frame>)
    requires r.Shape() && r.committed <= r.acquired && slot == (r.acquired - 1) % |r.state|
    ensures CommitAll(r, slot, frames).Some? <==> |frames| <= r.acquired - r.committed
    ensures var u := CommitAll(r, slot, frames);
            u.Some? ==> && u.value.ready == r.ready + Repeat(slot, |frames|)
                        && u.value.committed == r.committed + |frames| && u.value.acquired == r.acquired
    decreases |frames|
  {
    if frames == [] {
      assert r.ready + Repeat(slot, 0) == r.ready;
    } else {
      AcceptedOncePerOutstanding(r, slot, frames[..|frames| - 1]);
      assert r.ready + Repeat(slot, |frames|) == r.ready + Repeat(slot, |frames| - 1) + [slot];
    }
  }

  /** After an abandon the slot acquired before it is accepted, if that one is still
      outstanding; the abandoned slot itself only in a ring of one. */
  lemma AbandonAcceptsTheOneBefore(r: Ring, slot: nat, other: nat)
    requires r.Shape() && r.committed <= r.acquired && IsLastAcquired(r, slot)
    ensures IsLastAcquired(Abandoned(r), other)
       <==> r.acquired != r.committed + 1 && other == (r.acquired - 2) % |r.state|
    ensures IsLastAcquired(Abandoned(r), slot) <==> r.acquired != r.committed + 1 && |r.state| == 1
  {
    if r.acquired != r.committed + 1 {
      var k: nat, n := r.acquired - 2, |r.state|;
      if n > 1 { RingApart(k, k + 1, n); }
    }
  }

  /** Two slots can be outstanding, and then the consumer is handed a slot that was
      never refilled. */
  lemma TwoOutstandingDoubleCommit(slots: nat, slotBytes: nat, f: Frame, g: Frame)
    requires slots >= 2
    ensures var r := Acquired(Acquired(Opened(Staged, slots, slotBytes)));
            r.Shape() && CommitAll(r, 1, [f, g]).Some? && CommitAll(r, 1, [f, g]).value.ready == [1, 1]
  {
    ModIs(1, 0, 1, slots);
    var r := Acquired(Acquired(Opened(Staged, slots, slotBytes)));
    AcceptedOncePerOutstanding(r, 1, [f, g]);
    assert r.ready + Repeat(1, 2) == [1, 1];
  }
}
