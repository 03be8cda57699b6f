/** Runs of the tap ring: one producer, whose copy is made byte by byte between
    its two critical sections, and any number of consumers taking and dropping
    frames at any moment. */
module TapRuns {
  import opened Options
  import opened Bytes
  import opened HostFrameRing

  datatype Producer =
    | Idle
    | Copying(slot: nat, data: Buffer, stamp: nat, at: nat)

  /** A frame handed to a consumer, and what it looked like then. */
  datatype Handle = Handle(consumer: nat, slot: nat, frame: Frame, data: Buffer)

  datatype Published = Published(stamp: nat, data: Buffer)

  datatype Tap = Tap(ring: Ring, producer: Producer, handles: map<nat, Handle>, ledger: seq<Published>, taken: seq<nat>)

  datatype Action =
    | Join
    | Publish(data: Buffer, stamp: nat)
    | Step                                // the producer's next byte, or the end of its publish
    | Acquire(id: nat, consumer: nat)
    | Release(id: nat)
    | Stop

  function Start(slots: nat, frameBytes: nat): Tap {
    Tap(Empty(slots, frameBytes), Idle, map[], [], [])
  }

  ghost predicate Shape(t: Tap) {
    && t.ring.Shape() && |t.taken| == |t.ring.cursors| && (t.ring.latestSeq > 0 ==> t.ring.latest.Some?)
    && (t.producer.Copying? ==> t.producer.slot < |t.ring.holds| && t.producer.at <= |t.producer.data|)
    && forall id | id in t.handles :: t.handles[id].slot < |t.ring.holds|
  }

  function BeginPublish(t: Tap, data: Buffer, stamp: nat): Tap {
    if t.producer.Copying? then t   // one producer
    else if !t.ring.running then t.(ring := Began(t.ring))
    else
      match FirstFree(t.ring, 0)
      case None => t.(ring := Dropped(t.ring))
      case Some(slot) => t.(ring := Reserved(t.ring, slot), producer := Copying(slot, data, stamp, 0))
  }

  ghost function ProducerStep(t: Tap): Tap
    requires Shape(t)
  {
    match t.producer
    case Idle => t
    case Copying(slot, data, stamp, at) =>
      if |data| > t.ring.frameBytes then t.(ring := Refused(t.ring, slot), producer := Idle)
      else if at < |data| then
        t.(ring := Wrote(t.ring, slot, at, data[at]), producer := Copying(slot, data, stamp, at + 1))
      else
        t.(ring := Finalised(t.ring, slot, stamp, |data|), producer := Idle,
           ledger := t.ledger + [Published(stamp, data)])
  }

  /** The bytes a frame in a slot has. */
  function Content(r: Ring, slot: nat): Buffer
    requires slot < |r.block| == |r.frames|
  {
    if r.frames[slot].bytes <= |r.block[slot]| then r.block[slot][..r.frames[slot].bytes] else []
  }

  ghost function Take(t: Tap, id: nat, consumer: nat): Tap
    requires Shape(t)
  {
    if id in t.handles || consumer >= |t.ring.cursors| || Waits(t.ring, consumer) || !t.ring.running then t
    else
      var slot := t.ring.latest.value;
      t.(ring := Acquired(t.ring, consumer), taken := t.taken[consumer := t.taken[consumer] + 1],
         handles := t.handles[id := Handle(consumer, slot, t.ring.frames[slot], Content(t.ring, slot))])
  }

  ghost function Next(t: Tap, a: Action): Tap
    requires Shape(t)
  {
    match a
    case Join => if t.ring.publishing then t else t.(ring := Joined(t.ring), taken := t.taken + [0])
    case Publish(data, stamp) => BeginPublish(t, data, stamp)
    case Step => ProducerStep(t)
    case Acquire(id, consumer) => Take(t, id, consumer)
    case Release(id) =>
      if id !in t.handles then t
      else t.(ring := Released(t.ring, t.handles[id].slot), handles := t.handles - {id})
    case Stop => t.(ring := t.ring.(running := false))
  }

  // ------------------------------------------------------- what every run keeps

  ghost function Holders(t: Tap, slot: nat): set<nat> {
    set id | id in t.handles && t.handles[id].slot == slot
  }

  function Copies(p: Producer, slot: nat): nat {
    if p.Copying? && p.slot == slot then 1 else 0
  }

  /** The slots nobody else may have. */
  ghost function Pinned(r: Ring): set<nat> {
    set i: nat | i < |r.holds| && !r.IsFree(i)
  }

  /** Every hold is a frame handed out or the producer's reservation. */
  ghost predicate HoldsExact(t: Tap)
    requires Shape(t)
  {
    forall i: nat | i < |t.ring.holds| :: t.ring.holds[i] == |Holders(t, i)| + Copies(t.producer, i)
  }

  ghost predicate Exclusive(t: Tap)
    requires Shape(t)
  {
    t.producer.Copying? ==> Holders(t, t.producer.slot) == {} && t.ring.latest != Some(t.producer.slot)
  }

  /** A slot holds publication `n`. */
  ghost predicate IsPublication(t: Tap, slot: nat, n: nat)
    requires slot < |t.ring.block| == |t.ring.frames|
  {
    && 0 < n <= |t.ledger| && Content(t.ring, slot) == t.ledger[n - 1].data
    && |t.ledger[n - 1].data| <= |t.ring.block[slot]|
    && t.ring.frames[slot] == Frame(t.ledger[n - 1].stamp, |t.ledger[n - 1].data|, n)
  }

  ghost predicate HandleOk(t: Tap, h: Handle)
    requires Shape(t) && h.slot < |t.ring.holds|
  {
    h.frame == t.ring.frames[h.slot] && h.data == Content(t.ring, h.slot) && IsPublication(t, h.slot, h.frame.seqNo)
  }

  ghost predicate FramesOk(t: Tap)
    requires Shape(t)
  {
    && t.ring.sequence == t.ring.latestSeq == t.ring.published == |t.ledger|
    && (t.ring.latest.Some? <==> |t.ledger| > 0)
    && (t.ring.latest.Some? ==> IsPublication(t, t.ring.latest.value, |t.ledger|))
    && (forall id | id in t.handles :: HandleOk(t, t.handles[id]))
  }

  /** The copy so far. */
  ghost predicate CopyOk(t: Tap)
    requires Shape(t)
  {
    t.producer.Copying? && |t.producer.data| <= t.ring.frameBytes ==>
      t.ring.block[t.producer.slot][..t.producer.at] == t.producer.data[..t.producer.at]
  }

  ghost predicate CursorsOk(t: Tap)
    requires Shape(t)
  {
    forall c: nat | c < |t.ring.cursors| ::
      t.ring.cursors[c] <= |t.ledger| && t.ring.cursors[c] == t.taken[c] + t.ring.skipped[c] && t.ring.skipped[c] >= 0
  }

  ghost predicate InUseOk(r: Ring) {
    r.inUse == |Pinned(r)| && r.inUse <= r.peak <= |r.holds|
  }

  ghost predicate Inv(t: Tap) {
    Shape(t) && HoldsExact(t) && Exclusive(t) && FramesOk(t) && CopyOk(t) && CursorsOk(t) && InUseOk(t.ring)
  }

  lemma StartInv(slots: nat, frameBytes: nat)
    requires slots >= 2
    ensures Inv(Start(slots, frameBytes))
  {
    var t := Start(slots, frameBytes);
    assert forall i: nat | i < slots :: Holders(t, i) == {} && t.ring.IsFree(i);
    assert Pinned(t.ring) == {};
  }

  // ---- counting slots

  lemma OneMore<T>(before: set<T>, after: set<T>, i: T)
    requires i !in before && after == before + {i}
    ensures |after| == |before| + 1
  {
  }

  function Below(n: nat): (s: set<nat>)
    ensures |s| == n && forall i: nat :: i in s <==> i < n
  {
    if n == 0 then {} else Below(n - 1) + {n - 1}
  }

  lemma Contained<T>(x: set<T>, y: set<T>)
    requires x <= y
    ensures |x| <= |y|
  {
    assert y == x + (y - x);
  }

  lemma PinnedBounded(r: Ring)
    ensures |Pinned(r)| <= |r.holds|
  {
    Contained(Pinned(r), Below(|r.holds|));
  }

  // ---- frames

  /** Frames are fine as long as the held slots, the newest and the ledger stay. */
  lemma FramesStay(t: Tap, u: Tap)
    requires Shape(t) && Shape(u) && FramesOk(t) && u.handles == t.handles && u.ledger == t.ledger
    requires |u.ring.holds| == |t.ring.holds| && u.ring.latest == t.ring.latest
    requires u.ring.sequence == t.ring.sequence && u.ring.latestSeq == t.ring.latestSeq
    requires u.ring.published == t.ring.published
    requires forall i: nat | i < |t.ring.holds| && !(t.producer.Copying? && t.producer.slot == i) ::
               u.ring.block[i] == t.ring.block[i] && u.ring.frames[i] == t.ring.frames[i]
    requires Exclusive(t)
    ensures FramesOk(u)
  {
    forall id | id in u.handles ensures HandleOk(u, u.handles[id]) {
      var h := t.handles[id];
      assert HandleOk(t, h);
      assert id in Holders(t, h.slot);
    }
  }

  // ---- publish

  lemma ReserveKeeps(t: Tap, slot: nat, data: Buffer, stamp: nat)
    requires Inv(t) && t.producer.Idle? && slot < |t.ring.holds| && t.ring.IsFree(slot)
    ensures Inv(t.(ring := Reserved(t.ring, slot), producer := Copying(slot, data, stamp, 0)))
  {
    var u := t.(ring := Reserved(t.ring, slot), producer := Copying(slot, data, stamp, 0));
    FramesStay(t, u);
    hide FramesOk, CopyOk, CursorsOk;
    assert CopyOk(u) by { CopyStarts(u); }
    assert CursorsOk(u) by { CursorsStay(t, u); }
    assert Holders(t, slot) == {};
    assert forall i: nat | i < |t.ring.holds| :: Holders(u, i) == Holders(t, i);
    assert Pinned(u.ring) == Pinned(t.ring) + {slot} by {
      assert forall i: nat | i < |t.ring.holds| && i != slot :: u.ring.IsFree(i) <==> t.ring.IsFree(i);
    }
    OneMore(Pinned(t.ring), Pinned(u.ring), slot);
    PinnedBounded(u.ring);
  }

  lemma CopyStarts(t: Tap)
    requires Shape(t) && t.producer.Copying? && t.producer.at == 0
    ensures CopyOk(t)
  {
  }

  lemma CursorsStay(t: Tap, u: Tap)
    requires Shape(t) && Shape(u) && CursorsOk(t) && |t.ledger| <= |u.ledger|
    requires u.ring.cursors == t.ring.cursors && u.ring.skipped == t.ring.skipped && u.taken == t.taken
    ensures CursorsOk(u)
  {
  }

  lemma WriteKeeps(t: Tap)
    requires Inv(t) && t.producer.Copying? && |t.producer.data| <= t.ring.frameBytes
    requires t.producer.at < |t.producer.data|
    ensures Inv(ProducerStep(t))
  {
    var u := ProducerStep(t);
    FramesStay(t, u);
    var p := t.producer;
    assert u.ring.block[p.slot][..p.at + 1] == t.ring.block[p.slot][..p.at] + [p.data[p.at]];
    assert p.data[..p.at + 1] == p.data[..p.at] + [p.data[p.at]];
    assert forall i: nat | i < |t.ring.holds| ::
             Holders(u, i) == Holders(t, i) && Copies(u.producer, i) == Copies(p, i);
    assert Pinned(u.ring) == Pinned(t.ring) by {
      assert forall i: nat | i < |t.ring.holds| :: u.ring.IsFree(i) <==> t.ring.IsFree(i);
    }
  }

  lemma RefuseKeeps(t: Tap)
    requires Inv(t) && t.producer.Copying? && |t.producer.data| > t.ring.frameBytes
    ensures Inv(ProducerStep(t))
  {
    var u := ProducerStep(t);
    FramesStay(t, u);
    assert forall i: nat | i < |t.ring.holds| :: Holders(u, i) == Holders(t, i);
    assert t.ring.holds[t.producer.slot] == 1;
    assert Pinned(t.ring) == Pinned(u.ring) + {t.producer.slot} by {
      assert forall i: nat | i < |t.ring.holds| && i != t.producer.slot :: u.ring.IsFree(i) <==> t.ring.IsFree(i);
    }
    OneMore(Pinned(u.ring), Pinned(t.ring), t.producer.slot);
  }

  lemma FinishFrames(t: Tap)
    requires Inv(t) && t.producer.Copying? && t.producer.at == |t.producer.data| <= t.ring.frameBytes
    ensures FramesOk(ProducerStep(t))
  {
    var u := ProducerStep(t);
    var p := t.producer;
    assert p.data[..p.at] == p.data;
    assert IsPublication(u, p.slot, |u.ledger|);
    forall id | id in u.handles ensures HandleOk(u, u.handles[id]) {
      var h := t.handles[id];
      assert HandleOk(t, h);
      assert id in Holders(t, h.slot);
    }
  }

  /** The newest frame takes the copy's slot; the one before it goes free unless
      held. */
  lemma FinishPinned(t: Tap)
    requires Inv(t) && t.producer.Copying? && t.producer.at == |t.producer.data| <= t.ring.frameBytes
    ensures InUseOk(ProducerStep(t).ring)
  {
    var u := ProducerStep(t);
    var slot := t.producer.slot;
    assert t.ring.holds[slot] == 1 && u.ring.holds[slot] == 0;
    assert !u.ring.IsFree(slot) && !t.ring.IsFree(slot);
    if t.ring.latest.Some? && t.ring.holds[t.ring.latest.value] == 0 {
      var previous := t.ring.latest.value;
      assert Pinned(t.ring) == Pinned(u.ring) + {previous} by {
        assert forall i: nat | i < |t.ring.holds| && i != slot && i != previous ::
            u.ring.IsFree(i) <==> t.ring.IsFree(i);
      }
      OneMore(Pinned(u.ring), Pinned(t.ring), previous);
    } else {
      assert Pinned(t.ring) == Pinned(u.ring) by {
        assert forall i: nat | i < |t.ring.holds| && i != slot :: u.ring.IsFree(i) <==> t.ring.IsFree(i);
      }
    }
  }

  lemma FinishKeeps(t: Tap)
    requires Inv(t) && t.producer.Copying? && t.producer.at == |t.producer.data| <= t.ring.frameBytes
    ensures Inv(ProducerStep(t))
  {
    var u := ProducerStep(t);
    FinishFrames(t);
    FinishPinned(t);
    assert forall i: nat | i < |t.ring.holds| :: Holders(u, i) == Holders(t, i);
    hide FramesOk, InUseOk;
  }

  lemma PublishKeeps(t: Tap, data: Buffer, stamp: nat)
    requires Inv(t)
    ensures Inv(BeginPublish(t, data, stamp))
  {
    var u := BeginPublish(t, data, stamp);
    if t.producer.Idle? && t.ring.running && FirstFree(t.ring, 0).Some? {
      ReserveKeeps(t, FirstFree(t.ring, 0).value, data, stamp);
    } else {
      SameRing(t, u);
    }
  }

  /** Flags and counters matter to nothing. */
  lemma SameRing(t: Tap, u: Tap)
    requires Inv(t) && u == t.(ring := u.ring)
    requires u.ring == t.ring.(publishing := u.ring.publishing, drops := u.ring.drops, running := u.ring.running)
    ensures Inv(u)
  {
    FramesStay(t, u);
    assert forall i: nat | i < |t.ring.holds| :: Holders(u, i) == Holders(t, i);
    assert Pinned(u.ring) == Pinned(t.ring) by {
      assert forall i: nat | i < |t.ring.holds| :: u.ring.IsFree(i) <==> t.ring.IsFree(i);
    }
  }

  // ---- consumers

  lemma TakeHolds(t: Tap, id: nat, consumer: nat)
    requires Inv(t) && Take(t, id, consumer) != t
    ensures HoldsExact(Take(t, id, consumer)) && Exclusive(Take(t, id, consumer))
  {
    var u := Take(t, id, consumer);
    var slot := t.ring.latest.value;
    assert Holders(u, slot) == Holders(t, slot) + {id};
    OneMore(Holders(t, slot), Holders(u, slot), id);
    assert forall i: nat | i < |t.ring.holds| && i != slot :: Holders(u, i) == Holders(t, i);
  }

  lemma TakeFrames(t: Tap, id: nat, consumer: nat)
    requires Inv(t) && Take(t, id, consumer) != t
    ensures FramesOk(Take(t, id, consumer))
  {
    var u := Take(t, id, consumer);
    assert IsPublication(t, t.ring.latest.value, |t.ledger|);
    forall other | other in u.handles ensures HandleOk(u, u.handles[other]) {
      if other != id { assert HandleOk(t, t.handles[other]); }
    }
  }

  lemma TakeKeeps(t: Tap, id: nat, consumer: nat)
    requires Inv(t)
    ensures Inv(Take(t, id, consumer))
  {
    var u := Take(t, id, consumer);
    if u != t {
      TakeHolds(t, id, consumer);
      TakeFrames(t, id, consumer);
      hide FramesOk, HoldsExact, Exclusive, CopyOk;
      assert CopyOk(u) by { TakeCopy(t, id, consumer); }
      assert Pinned(u.ring) == Pinned(t.ring) by {
        assert forall i: nat | i < |t.ring.holds| :: u.ring.IsFree(i) <==> t.ring.IsFree(i);
      }
      assert CursorsOk(u) by { TakeCursors(t, id, consumer); }
    }
  }

  lemma TakeCopy(t: Tap, id: nat, consumer: nat)
    requires Inv(t)
    ensures CopyOk(Take(t, id, consumer))
  {
  }

  lemma TakeCursors(t: Tap, id: nat, consumer: nat)
    requires Inv(t) && Take(t, id, consumer) != t
    ensures CursorsOk(Take(t, id, consumer))
  {
  }

  lemma ReleaseHolds(t: Tap, id: nat)
    requires Inv(t) && id in t.handles
    ensures HoldsExact(Next(t, Release(id))) && t.ring.holds[t.handles[id].slot] > 0
  {
    var u := Next(t, Release(id));
    var slot := t.handles[id].slot;
    assert Holders(t, slot) == Holders(u, slot) + {id};
    OneMore(Holders(u, slot), Holders(t, slot), id);
    assert forall i: nat | i < |t.ring.holds| && i != slot :: Holders(u, i) == Holders(t, i);
  }

  lemma ReleasePinned(t: Tap, id: nat)
    requires Inv(t) && id in t.handles && t.ring.holds[t.handles[id].slot] > 0
    ensures InUseOk(Next(t, Release(id)).ring)
  {
    var u := Next(t, Release(id));
    var slot := t.handles[id].slot;
    if u.ring.IsFree(slot) {
      assert Pinned(t.ring) == Pinned(u.ring) + {slot} by {
        assert forall i: nat | i < |t.ring.holds| && i != slot :: u.ring.IsFree(i) <==> t.ring.IsFree(i);
      }
      OneMore(Pinned(u.ring), Pinned(t.ring), slot);
    } else {
      assert Pinned(t.ring) == Pinned(u.ring) by {
        assert forall i: nat | i < |t.ring.holds| && i != slot :: u.ring.IsFree(i) <==> t.ring.IsFree(i);
      }
    }
  }

  lemma ReleaseKeeps(t: Tap, id: nat)
    requires Inv(t)
    ensures Inv(Next(t, Release(id)))
  {
    if id in t.handles {
      var u := Next(t, Release(id));
      ReleaseHolds(t, id);
      ReleasePinned(t, id);
      ReleaseFrames(t, id);
      hide HoldsExact, InUseOk, FramesOk;
      assert Exclusive(u) by {
        assert u.producer.Copying? ==> Holders(u, u.producer.slot) <= Holders(t, u.producer.slot);
      }
    }
  }

  lemma ReleaseFrames(t: Tap, id: nat)
    requires Shape(t) && FramesOk(t) && id in t.handles && t.ring.holds[t.handles[id].slot] > 0
    ensures Shape(Next(t, Release(id))) && FramesOk(Next(t, Release(id)))
  {
    var u := Next(t, Release(id));
    forall other | other in u.handles ensures HandleOk(u, u.handles[other]) {
      assert HandleOk(t, t.handles[other]);
    }
  }

  lemma JoinKeeps(t: Tap)
    requires Inv(t)
    ensures Inv(Next(t, Join))
  {
    var u := Next(t, Join);
    FramesStay(t, u);
    assert forall i: nat | i < |t.ring.holds| :: Holders(u, i) == Holders(t, i);
    assert Pinned(u.ring) == Pinned(t.ring) by {
      assert forall i: nat | i < |t.ring.holds| :: u.ring.IsFree(i) <==> t.ring.IsFree(i);
    }
  }

  lemma NextKeeps(t: Tap, a: Action)
    requires Inv(t)
    ensures Inv(Next(t, a))
  {
    match a
    case Join => JoinKeeps(t);
    case Publish(data, stamp) => PublishKeeps(t, data, stamp);
    case Step =>
      if t.producer.Copying? {
        if |t.producer.data| > t.ring.frameBytes { RefuseKeeps(t); }
        else if t.producer.at < |t.producer.data| { WriteKeeps(t); }
        else { FinishKeeps(t); }
      }
    case Acquire(id, consumer) => TakeKeeps(t, id, consumer);
    case Release(id) => ReleaseKeeps(t, id);
    case Stop => SameRing(t, Next(t, a));
  }

  // ------------------------------------------------------------ main theorems

  /** The state the threads' actions lead to. */
  ghost function Runs(slots: nat, frameBytes: nat, acts: seq<Action>): (t: Tap)
    requires slots >= 2
    ensures Shape(t)
    decreases |acts|, 0
  {
    if acts == [] then
      StartInv(slots, frameBytes);
      Start(slots, frameBytes)
    else
      var before := Runs(slots, frameBytes, acts[..|acts| - 1]);
      RunsInv(slots, frameBytes, acts[..|acts| - 1]);
      NextKeeps(before, acts[|acts| - 1]);
      Next(before, acts[|acts| - 1])
  }

  lemma {:induction false} RunsInv(slots: nat, frameBytes: nat, acts: seq<Action>)
    requires slots >= 2
    ensures Inv(Runs(slots, frameBytes, acts))
    decreases |acts|, 1
  {
    hide Inv, Next;
    if acts == [] {
      StartInv(slots, frameBytes);
    } else {
      var before := acts[..|acts| - 1];
      RunsInv(slots, frameBytes, before);
      NextKeeps(Runs(slots, frameBytes, before), acts[|acts| - 1]);
    }
  }

  lemma RunsOn(slots: nat, frameBytes: nat, acts: seq<Action>, a: Action)
    requires slots >= 2
    ensures Runs(slots, frameBytes, acts + [a]) == Next(Runs(slots, frameBytes, acts), a)
  {
    assert (acts + [a])[..|acts + [a]| - 1] == acts;
  }

  /** in_use is exact at every moment: it counts the slots that a consumer holds,
      that the producer is copying into, or that hold the newest frame. */
  lemma InUseExact(slots: nat, frameBytes: nat, acts: seq<Action>)
    requires slots >= 2
    ensures var t := Runs(slots, frameBytes, acts);
            && t.ring.inUse == |Pinned(t.ring)| <= t.ring.peak <= slots == |t.ring.holds|
            && forall i: nat :: i in Pinned(t.ring) <==>
                 i < slots && (Holders(t, i) != {} || t.ring.latest == Some(i)
                               || (t.producer.Copying? && t.producer.slot == i))
  {
    RunsInv(slots, frameBytes, acts);
    SlotsStay(slots, frameBytes, acts);
    var t := Runs(slots, frameBytes, acts);
    forall i: nat | i < slots
      ensures t.ring.holds[i] == 0 <==> Holders(t, i) == {} && Copies(t.producer, i) == 0
    {
      if Holders(t, i) != {} {
        var id :| id in Holders(t, i);
        assert |Holders(t, i) - {id}| + 1 == |Holders(t, i)|;
      }
    }
  }

  lemma {:induction false} SlotsStay(slots: nat, frameBytes: nat, acts: seq<Action>)
    requires slots >= 2
    ensures var r := Runs(slots, frameBytes, acts).ring; |r.holds| == slots && r.frameBytes == frameBytes
  {
    hide Inv, Next;
    if acts != [] {
      var before := acts[..|acts| - 1];
      SlotsStay(slots, frameBytes, before);
      NextSlots(Runs(slots, frameBytes, before), acts[|acts| - 1]);
    }
  }

  lemma NextSlots(t: Tap, a: Action)
    requires Shape(t)
    ensures var r := Next(t, a).ring; |r.holds| == |t.ring.holds| && r.frameBytes == t.ring.frameBytes
  {
  }

  /** Only its own release touches a handle. */
  lemma NextHandles(t: Tap, a: Action, id: nat)
    requires Shape(t) && id in t.handles && a != Release(id)
    ensures id in Next(t, a).handles && Next(t, a).handles[id] == t.handles[id]
  {
  }

  lemma HandleShows(t: Tap, id: nat)
    requires Inv(t) && id in t.handles
    ensures var h := t.handles[id];
            && h.slot < |t.ring.frames| == |t.ring.block|
            && t.ring.frames[h.slot] == h.frame && Content(t.ring, h.slot) == h.data
            && 0 < h.frame.seqNo <= |t.ledger| && t.ledger[h.frame.seqNo - 1] == Published(h.frame.stamp, h.data)
  {
    assert HandleOk(t, t.handles[id]);
  }

  /** The bytes and the description of a held frame never change, whatever the
      producer and the other consumers do until it is released; and they are those
      of the publication it is numbered as. */
  lemma {:induction false} HeldFrameNeverChanges(slots: nat, frameBytes: nat, acts: seq<Action>, more: seq<Action>,
                                                 id: nat)
    requires slots >= 2 && id in Runs(slots, frameBytes, acts).handles && Release(id) !in more
    ensures var h := Runs(slots, frameBytes, acts).handles[id];
            var u := Runs(slots, frameBytes, acts + more);
            && id in u.handles && u.handles[id] == h
            && h.slot < |u.ring.frames| == |u.ring.block| && u.ring.frames[h.slot] == h.frame
            && Content(u.ring, h.slot) == h.data
            && 0 < h.frame.seqNo <= |u.ledger| && u.ledger[h.frame.seqNo - 1] == Published(h.frame.stamp, h.data)
    decreases |more|
  {
    hide Inv, Next, Content, Runs;
    var u := Runs(slots, frameBytes, acts + more);
    if more == [] {
      assert acts + more == acts;
    } else {
      var init := more[..|more| - 1];
      var a := more[|more| - 1];
      HeldFrameNeverChanges(slots, frameBytes, acts, init, id);
      assert acts + more == acts + init + [a];
      RunsOn(slots, frameBytes, acts + init, a);
      assert a in more;
      var t := Runs(slots, frameBytes, acts + init);
      NextHandles(t, a, id);
    }
    RunsInv(slots, frameBytes, acts + more);
    HandleShows(u, id);
  }

  /** A publish on a running tap drops its frame exactly when every slot is held by
      a consumer or the newest. */
  lemma DropsIffAllPinned(slots: nat, frameBytes: nat, acts: seq<Action>, data: Buffer, stamp: nat)
    requires slots >= 2
    requires var t := Runs(slots, frameBytes, acts); t.producer.Idle? && t.ring.running
    ensures var t := Runs(slots, frameBytes, acts);
            Next(t, Publish(data, stamp)).ring.drops == t.ring.drops + 1
            <==> forall i: nat | i < slots :: Holders(t, i) != {} || t.ring.latest == Some(i)
  {
    InUseExact(slots, frameBytes, acts);
  }

  /** As long as consumers hold at most two frames less than there are slots, no
      publish drops its frame. */
  lemma NeverDropsWithRoom(slots: nat, frameBytes: nat, acts: seq<Action>, data: Buffer, stamp: nat)
    requires slots >= 2
    requires var t := Runs(slots, frameBytes, acts); t.producer.Idle? && t.ring.running && |t.handles| + 2 <= slots
    ensures var t := Runs(slots, frameBytes, acts);
            Next(t, Publish(data, stamp)).producer.Copying? && Next(t, Publish(data, stamp)).ring.drops == t.ring.drops
  {
    RunsInv(slots, frameBytes, acts);
    var t := Runs(slots, frameBytes, acts);
    InUseExact(slots, frameBytes, acts);
    PinnedByHandles(t);
    if FirstFree(t.ring, 0).None? {
      Contained(Below(slots), Pinned(t.ring));
    }
  }

  ghost function HeldSlots(handles: map<nat, Handle>, ids: set<nat>): set<nat>
    requires ids <= handles.Keys
  {
    set id | id in ids :: handles[id].slot
  }

  lemma PinnedByHandles(t: Tap)
    requires Shape(t) && t.producer.Idle?
    requires forall i: nat | i in Pinned(t.ring) :: Holders(t, i) != {} || t.ring.latest == Some(i)
    ensures |Pinned(t.ring)| <= |t.handles| + 1
  {
    var held := HeldSlots(t.handles, t.handles.Keys);
    var newest := if t.ring.latest.Some? then t.ring.latest.value else 0;
    HandlesCoverSlots(t.handles, t.handles.Keys);
    forall i: nat | i in Pinned(t.ring) ensures i in held + {newest} {
      if Holders(t, i) != {} {
        var id :| id in Holders(t, i);
        assert t.handles[id].slot in held;
      }
    }
    hide *;
    WithinOneMore(Pinned(t.ring), held, newest);
  }

  lemma WithinOneMore<T>(x: set<T>, y: set<T>, e: T)
    requires x <= y + {e}
    ensures |x| <= |y| + 1
  {
    Contained(x, y + {e});
  }

  lemma {:induction false} HandlesCoverSlots(handles: map<nat, Handle>, ids: set<nat>)
    requires ids <= handles.Keys
    ensures |HeldSlots(handles, ids)| <= |ids|
    decreases |ids|
  {
    if ids != {} {
      var id :| id in ids;
      var rest := ids - {id};
      HandlesCoverSlots(handles, rest);
      assert HeldSlots(handles, ids) <= HeldSlots(handles, rest) + {handles[id].slot};
      Contained(HeldSlots(handles, ids), HeldSlots(handles, rest) + {handles[id].slot});
    } else {
      assert HeldSlots(handles, ids) == {};
    }
  }

  /** In every run a consumer that asks is served exactly if the tap runs and something
      was published since the frame it took last, however much; else nothing changes. */
  lemma ServedExactly(slots: nat, frameBytes: nat, acts: seq<Action>, id: nat, consumer: nat)
    requires slots >= 2
    requires var t := Runs(slots, frameBytes, acts); id !in t.handles && consumer < |t.ring.cursors|
    ensures var t := Runs(slots, frameBytes, acts);
            var u := Next(t, Acquire(id, consumer));
            if t.ring.running && |t.ledger| > t.ring.cursors[consumer] then id in u.handles else u == t
  {
    RunsInv(slots, frameBytes, acts);
  }

  /** What the tap's high-water mark is to be: the most slots ever in use at once. */
  ghost function MostInUse(slots: nat, frameBytes: nat, acts: seq<Action>): int
    requires slots >= 2
  {
    var now := Runs(slots, frameBytes, acts).ring.inUse;
    if acts == [] then now
    else
      var before := MostInUse(slots, frameBytes, acts[..|acts| - 1]);
      if now > before then now else before
  }

  lemma {:induction false} PeakExact(slots: nat, frameBytes: nat, acts: seq<Action>)
    requires slots >= 2
    ensures Runs(slots, frameBytes, acts).ring.peak == MostInUse(slots, frameBytes, acts)
  {
    if acts != [] {
      var before, a := acts[..|acts| - 1], acts[|acts| - 1];
      PeakExact(slots, frameBytes, before);
      RunsInv(slots, frameBytes, before);
      NextPeak(Runs(slots, frameBytes, before), a);
      hide Inv, Next;
    }
  }

  lemma NextPeak(t: Tap, a: Action)
    requires Shape(t) && t.ring.inUse <= t.ring.peak
    ensures var u := Next(t, a); u.ring.peak == if u.ring.inUse > t.ring.peak then u.ring.inUse else t.ring.peak
  {
  }

  /** A consumer is handed the newest publication, strictly newer than its last
      one, and what it took and what it stepped over add up to its cursor. */
  lemma TakesNewest(slots: nat, frameBytes: nat, acts: seq<Action>, id: nat, consumer: nat)
    requires slots >= 2
    requires var t := Runs(slots, frameBytes, acts);
             && id !in t.handles && consumer < |t.ring.cursors|
             && t.ring.running && |t.ledger| > t.ring.cursors[consumer]
    ensures var t := Runs(slots, frameBytes, acts);
            var u := Next(t, Acquire(id, consumer));
            && id in u.handles && u.handles[id].frame.seqNo == |t.ledger| > t.ring.cursors[consumer]
            && t.ledger[|t.ledger| - 1] == Published(u.handles[id].frame.stamp, u.handles[id].data)
            && u.ring.cursors[consumer] == |t.ledger| == u.taken[consumer] + u.ring.skipped[consumer]
            && u.taken[consumer] == t.taken[consumer] + 1
  {
    RunsInv(slots, frameBytes, acts);
    var t := Runs(slots, frameBytes, acts);
    ServedExactly(slots, frameBytes, acts, id, consumer);
    hide Runs;
    TakeShows(t, id, consumer);
  }

  lemma TakeShows(t: Tap, id: nat, consumer: nat)
    requires Inv(t) && id !in t.handles && consumer < |t.ring.cursors| && t.ring.running
    requires |t.ledger| > t.ring.cursors[consumer] && id in Next(t, Acquire(id, consumer)).handles
    ensures var u := Next(t, Acquire(id, consumer));
            && u.handles[id].frame.seqNo == |t.ledger|
            && t.ledger[|t.ledger| - 1] == Published(u.handles[id].frame.stamp, u.handles[id].data)
            && consumer < |u.ring.cursors| == |u.ring.skipped| == |u.taken| == |t.taken|
            && u.ring.cursors[consumer] == |t.ledger| == u.taken[consumer] + u.ring.skipped[consumer]
            && u.taken[consumer] == t.taken[consumer] + 1
  {
    NextKeeps(t, Acquire(id, consumer));
    assert IsPublication(t, t.ring.latest.value, |t.ledger|);
    hide HoldsExact, Exclusive, CopyOk, InUseOk;
  }

  /** The documented sizing, one slot per consumer and two more, is not enough: a
      consumer that still has its old frame while it takes a new one lets a publish
      drop, here with one consumer and three slots. */
  lemma SizingRuleDrops(frameBytes: nat)
    ensures exists acts :: var t := Runs(3, frameBytes, acts);
              && t.ring.drops == 1 && |t.ring.cursors| == 1
              && |t.handles| == 2 && t.handles.Keys == {0, 1}
  {
    hide Inv, Runs, Shape;
    var acts3, t3 := OneHeld(frameBytes);
    var acts4, t4 := EmptyFrame(3, frameBytes, acts3, t3);
    assert t4.ring.holds == [1, 0, 0];
    var acts5, t5 := TakeRun(3, frameBytes, acts4, t4, 1);
    assert t5.ring.holds == [1, 1, 0] && t5.handles.Keys == {0, 1};
    assert t5.ring.IsFree(2) && !t5.ring.IsFree(0) && !t5.ring.IsFree(1);
    var acts6, t6 := EmptyFrame(3, frameBytes, acts5, t5);
    RunsOn(3, frameBytes, acts6, Publish([], 0));
    assert FirstFree(t6.ring, 0) == None;
  }

  /** The consumer joins, a frame is published, and the consumer takes it. */
  lemma OneHeld(frameBytes: nat) returns (acts: seq<Action>, t: Tap)
    ensures t == Runs(3, frameBytes, acts) && Shape(t) && t.producer.Idle? && t.ring.running && t.ring.drops == 0
    ensures t.ring.holds == [1, 0, 0] && t.ring.latest == Some(0) && t.ring.latestSeq == t.ring.sequence == 1
    ensures t.ring.cursors == [1] && t.handles.Keys == {0}
  {
    hide Inv, Runs;
    var t0 := StartOf(3, frameBytes);
    RunsOn(3, frameBytes, [], Join);
    var acts1, t1 := [] + [Join], Next(t0, Join);
    assert t1.ring.holds == [0, 0, 0];
    var acts2, t2 := EmptyFrame(3, frameBytes, acts1, t1);
    assert t2.ring.holds == [0, 0, 0];
    acts, t := TakeRun(3, frameBytes, acts2, t2, 0);
  }

  lemma StartOf(slots: nat, frameBytes: nat) returns (t: Tap)
    requires slots >= 2
    ensures t == Start(slots, frameBytes) == Runs(slots, frameBytes, []) && Shape(t)
  {
    t := Start(slots, frameBytes);
  }

  lemma TakeRun(slots: nat, frameBytes: nat, acts: seq<Action>, t: Tap, id: nat) returns (all: seq<Action>, u: Tap)
    requires slots >= 2 && t == Runs(slots, frameBytes, acts) && Shape(t)
    ensures all == acts + [Acquire(id, 0)] && u == Take(t, id, 0) == Runs(slots, frameBytes, all) && Shape(u)
  {
    RunsOn(slots, frameBytes, acts, Acquire(id, 0));
    all := acts + [Acquire(id, 0)];
    u := Take(t, id, 0);
  }

  /** A frame of no bytes is published in two steps. */
  lemma EmptyFrame(slots: nat, frameBytes: nat, acts: seq<Action>, t: Tap) returns (all: seq<Action>, u: Tap)
    requires slots >= 2 && t == Runs(slots, frameBytes, acts) && Shape(t) && t.producer.Idle? && t.ring.running
    requires FirstFree(t.ring, 0).Some?
    ensures u == Runs(slots, frameBytes, all) && Shape(u)
    ensures u.producer.Idle? && u.handles == t.handles && u.ring.holds == t.ring.holds && u.ring.running
    ensures u.ring.latest == FirstFree(t.ring, 0) && u.ring.latestSeq == u.ring.sequence == t.ring.sequence + 1
    ensures u.ring.cursors == t.ring.cursors && u.ring.drops == t.ring.drops
  {
    hide Inv, Runs;
    all := acts + [Publish([], 0)] + [Step];
    RunsOn(slots, frameBytes, acts, Publish([], 0));
    RunsOn(slots, frameBytes, acts + [Publish([], 0)], Step);
    u := Runs(slots, frameBytes, all);
    var slot := FirstFree(t.ring, 0).value;
    var r := Reserved(t.ring, slot);
    assert Copied(r.block[slot], 0, []) == r.block[slot];
    assert Stored(r, slot, []).block == r.block;
    assert r.holds[slot := 0] == t.ring.holds;
  }
}
