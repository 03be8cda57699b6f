/** Whole operations of the device ring that no other thread interrupts, as the
    states their atomic operations lead to, and runs built from them that show
    which promises the ring does not keep. */
module DeviceRingRuns {
  import opened Options
  import opened GpuLog
  import opened DeviceRing
  import opened DeviceRingSafety
  import opened DeviceRingOrder
  import opened DeviceRingGpu

  // ---------------------------------------------------------- one step at a time

  lemma Moves(c: Config, s: State, t: State, id: nat)
    requires Leads(c, s, t) && Shape(c, t) && id in t.lessees
    ensures Leads(c, s, LesseeNext(c, t, id)) && Shape(c, LesseeNext(c, t, id))
  {
    LeadsOn(c, s, t, LesseeStep(id));
    ShapeLessee(c, t, id);
  }

  lemma Works(c: Config, s: State, t: State, retired: bool)
    requires Leads(c, s, t) && Shape(c, t)
    ensures Leads(c, s, ProducerNext(c, t, retired)) && Shape(c, ProducerNext(c, t, retired))
  {
    LeadsOn(c, s, t, ProducerStep(retired));
    ShapeProducer(c, t, retired);
  }

  lemma ReachesOn(c: Config, s: State, t: State)
    requires Reachable(c, s) && Leads(c, s, t)
    ensures Reachable(c, t)
  {
    LeadsJoin(c, Init(c), s, t);
  }

  lemma ReachableShape(c: Config, s: State)
    requires Reachable(c, s)
    ensures Shape(c, s)
  {
    ReachableInv(c, s);
  }

  /** A reachable slot is at rest unless the producer fences it. */
  lemma AtRest(c: Config, s: State, p: nat)
    requires Reachable(c, s) && p < c.slots
    ensures Shape(c, s) && (s.seqNo[p] % 2 == 1 <==> s.producer.Fences(p))
  {
    ReachableInv(c, s);
  }

  // ------------------------------------------------------------ taking a lease

  /** An attempt that has picked a slot at rest gets it. */
  function Validates(s: State, id: nat): State
    requires id in s.lessees && s.lessees[id].stage.SawLatest? && s.lessees[id].stage.slot < |s.seqNo|
    requires |s.seqNo| == |s.stamps| == |s.tokens| == |s.numbers| == |s.readers|
  {
    var l := s.lessees[id];
    var p := l.stage.slot;
    var snap := Snapshot(s.stamps[p], s.tokens[p], s.numbers[p], NewestNo(s));
    s.(lessees := s.lessees[id := l.(stage := Validated(p, s.seqNo[p], None, snap))],
       readers := Bump(s.readers, p))
  }

  /** One move of attempt `id` from `t`, which differs from `s` in that attempt and
      the reader counts only. */
  lemma MovesTo(c: Config, s: State, l: Lessee, readers: seq<nat>, id: nat, m: Lessee)
    requires var t := s.(lessees := s.lessees[id := l], readers := readers);
             Leads(c, s, t) && Shape(c, t) && LesseeInRange(c, l) && Advance(c, t, l) == m
    ensures var u := s.(lessees := s.lessees[id := m], readers := CountsAfter(readers, l.stage));
            Leads(c, s, u) && Shape(c, u)
  {
    var t := s.(lessees := s.lessees[id := l], readers := readers);
    Moves(c, s, t, id);
    assert t.lessees[id := m] == s.lessees[id := m];
  }

  lemma ValidateRun(c: Config, s: State, id: nat)
    requires Shape(c, s) && id in s.lessees && s.lessees[id].stage.SawLatest?
    requires s.lessees[id].stage.slot < c.slots && s.seqNo[s.lessees[id].stage.slot] % 2 == 0
    ensures Leads(c, s, Validates(s, id)) && Shape(c, Validates(s, id))
  {
    var l := s.lessees[id];
    var p := l.stage.slot;
    var q := s.seqNo[p];
    assert LesseeInRange(c, l);
    assert s == s.(lessees := s.lessees[id := l], readers := s.readers);
    LeadsNowhere(c, s);
    MovesTo(c, s, l, s.readers, id, l.(stage := Chosen(p, q, None)));
    MovesTo(c, s, l.(stage := Chosen(p, q, None)), s.readers, id, l.(stage := Counted(p, q, None)));
    MovesTo(c, s, l.(stage := Counted(p, q, None)), Bump(s.readers, p), id, Validates(s, id).lessees[id]);
  }

  /** lease_latest's first load. */
  lemma LoadLatest(c: Config, s: State, id: nat) returns (t: State)
    requires Shape(c, s) && id in s.lessees && s.lessees[id].stage.Attempting?
    requires s.lessees[id].attempts > 0 && !s.lessees[id].want.ByTimestamp? && s.latest.Some?
    ensures Leads(c, s, t) && Shape(c, t)
    ensures var l := s.lessees[id];
            t == s.(lessees := s.lessees[id := l.(attempts := l.attempts - 1, stage := SawLatest(s.latest.value))])
  {
    assert LesseeInRange(c, s.lessees[id]);
    LeadsNowhere(c, s);
    Moves(c, s, s, id);
    t := LesseeNext(c, s, id);
  }

  /** A pair consumer's peek that finds a slot it did not just take. */
  lemma PeekRun(c: Config, s: State, id: nat)
    requires Shape(c, s) && id in s.lessees && s.lessees[id].stage.Peeking?
    requires s.latest.Some? && s.seqNo[s.latest.value] % 2 == 0
    requires var w := s.lessees[id].want;
             w.NextReference? ==> w.last != Some(Taken(s.latest.value, s.seqNo[s.latest.value]))
    ensures Leads(c, s, SetStage(s, id, Attempting))
  {
    LeadsNowhere(c, s);
    Moves(c, s, s, id);
    var s1 := LesseeNext(c, s, id);
    assert s1.lessees[id].stage == Peeked(s.latest.value);
    Moves(c, s, s1, id);
    assert LesseeNext(c, s1, id) == SetStage(s, id, Attempting);
  }

  lemma HeldIsNotNewest(c: Config, s: State, id: nat)
    requires Reachable(c, s) && c.policy.ScanForFree? && id in s.lessees && s.latest.Some?
    requires var g := s.lessees[id].stage;
             (g.Validated? || g.Leased? || g.Dropping?) && g.snap.no > NewestNo(s)
    ensures Shape(c, s) && s.lessees[id].consumer < c.consumers
    ensures s.latest.value != s.lessees[id].stage.slot && NewestNo(s) > 0
    ensures s.seqNo[s.latest.value] % 2 == 0
  {
    ReachableOrder(c, s);
    ReachableInv(c, s);
    var l := s.lessees[id];
    assert LesseeInRange(c, l) && StageOk(c, s, l.want, l.stage);
    AtRest(c, s, s.latest.value);
  }

  /** The condition of `TakenInOrder` cannot be dropped. While a consumer holds a
      frame that latest_ does not stand for yet, its next step can take an older
      one. */
  lemma AheadGoesBack(c: Config, s: State, id: nat, next: nat)
    requires Reachable(c, s) && c.policy.ScanForFree? && id in s.lessees && next !in s.lessees
    requires var l := s.lessees[id];
             l.want.NextReference? && (l.stage.Validated? || l.stage.Leased? || l.stage.Dropping?)
             && l.stage.snap.no > NewestNo(s) && s.latest.Some?
    ensures exists t :: Leads(c, s, t) && next in t.lessees && t.lessees[next].stage.Validated?
                        && t.lessees[next].want == ContinueFrom(s.lessees[id])
                        && 0 < t.lessees[next].stage.snap.no < s.lessees[id].stage.snap.no
  {
    var l := s.lessees[id];
    var p := s.latest.value;
    HeldIsNotNewest(c, s, id);
    hide Leads, Reachable;
    var w := ContinueFrom(l);
    assert Continues(s, w);
    var s1 := Next(c, s, StartLease(next, l.consumer, w, 1));
    assert s1 == s.(lessees := s.lessees[next := Lessee(l.consumer, w, 1, Peeking)]);
    LeadsNowhere(c, s);
    LeadsOn(c, s, s, StartLease(next, l.consumer, w, 1));
    PeekRun(c, s1, next);
    var s2 := SetStage(s1, next, Attempting);
    LeadsJoin(c, s, s1, s2);
    var s3 := LoadLatest(c, s2, next);
    LeadsJoin(c, s, s2, s3);
    ValidateRun(c, s3, next);
    LeadsJoin(c, s, s3, Validates(s3, next));
  }

  // ------------------------------------------------------------- writing a slot

  /** What order_behind_readers enqueues for consumers `k` and up. */
  function ReaderWaits(row: seq<nat>, k: nat): Log
    requires k <= |row|
    decreases |row| - k
  {
    if k == |row| then []
    else [Entry(ProducerStream, Wait(ConsumerStream(k), row[k]))] + ReaderWaits(row, k + 1)
  }

  function ReuseWaits(c: Config, at: nat): Log {
    if c.reuse.HostSync? then [] else [Entry(ProducerStream, Wait(ProducerStream, at))]
  }

  /** acquire_write_impl from a claimed slot without readers to a live WriteLease. */
  function Acquired(c: Config, s: State, p: nat): State
    requires Shape(c, s) && p < c.slots
  {
    s.(seqNo := Bump(s.seqNo, p), producer := Writing(p),
       log := s.log + ReaderWaits(s.readDone[p], 0) + ReuseWaits(c, s.dataReady[p]))
  }

  lemma AcquireRun(c: Config, s: State)
    requires Shape(c, s) && s.producer.Claimed? && s.readers[s.producer.slot] == 0
    ensures Leads(c, s, Acquired(c, s, s.producer.slot))
  {
    hide Leads;
    var p := s.producer.slot;
    LeadsNowhere(c, s);
    Works(c, s, s, false);
    var s1 := ProducerNext(c, s, false);
    Works(c, s, s1, false);
    var s2 := ProducerNext(c, s1, false);
    assert s2 == s.(seqNo := Bump(s.seqNo, p), producer := Ordering(p, 0));
    OrderingRun(c, s, s2);
    var s3 := s2.(log := s2.log + ReaderWaits(s2.readDone[p], 0), producer := Reusing(p));
    Works(c, s, s3, false);
    assert ProducerNext(c, s3, false).log == Acquired(c, s, p).log;
    assert ProducerNext(c, s3, false) == Acquired(c, s, p);
  }

  /** One event waited for brings the same end closer. */
  lemma OrderingCloser(c: Config, t: State)
    requires Shape(c, t) && t.producer.Ordering?
    ensures var u := ProducerNext(c, t, false);
            && Shape(c, u)
            && if t.producer.consumer < c.consumers then u.producer.Ordering? && DoneOrdering(u) == DoneOrdering(t)
               else u == DoneOrdering(t)
  {
    ShapeProducer(c, t, false);
    var row, k := t.readDone[t.producer.slot], t.producer.consumer;
    if k < c.consumers {
      assert t.log + ReaderWaits(row, k)
             == t.log + [Entry(ProducerStream, Wait(ConsumerStream(k), row[k]))] + ReaderWaits(row, k + 1);
    } else {
      assert t.log + ReaderWaits(row, k) == t.log;
    }
  }

  lemma {:induction false} OrderingRun(c: Config, s: State, t: State)
    requires Leads(c, s, t) && Shape(c, t) && t.producer.Ordering?
    ensures Leads(c, s, DoneOrdering(t)) && Shape(c, DoneOrdering(t))
    decreases c.consumers - t.producer.consumer
  {
    OrderingCloser(c, t);
    Works(c, s, t, false);
    if t.producer.consumer < c.consumers {
      OrderingRun(c, s, ProducerNext(c, t, false));
    }
  }

  /** The rest of order_behind_readers. */
  function DoneOrdering(t: State): State
    requires t.producer.Ordering? && t.producer.slot < |t.readDone|
    requires t.producer.consumer <= |t.readDone[t.producer.slot]|
  {
    t.(log := t.log + ReaderWaits(t.readDone[t.producer.slot], t.producer.consumer),
       producer := Reusing(t.producer.slot))
  }

  /** publish_slot up to and including the even sequence number. */
  function Sealed(s: State, p: nat, stamp: nat): State
    requires p < |s.seqNo| == |s.stamps| == |s.tokens| == |s.numbers| == |s.dataReady|
  {
    s.(dataReady := s.dataReady[p := |s.log|], stamps := s.stamps[p := stamp],
       seqNo := Bump(s.seqNo, p), producer := Bumped(p),
       ledger := s.ledger + [Publication(stamp, s.tokens[p])],
       numbers := s.numbers[p := |s.ledger| + 1])
  }

  function Published(s: State, p: nat, stamp: nat): State
    requires p < |s.seqNo| == |s.stamps| == |s.tokens| == |s.numbers| == |s.dataReady|
  {
    Sealed(s, p, stamp).(latest := Some(p), producer := Idle)
  }

  lemma SealRun(c: Config, s: State, stamp: nat)
    requires Shape(c, s) && s.producer.Writing?
    ensures Leads(c, s, Sealed(s, s.producer.slot, stamp)) && Shape(c, Sealed(s, s.producer.slot, stamp))
  {
    var p := s.producer.slot;
    LeadsNowhere(c, s);
    LeadsOn(c, s, s, Publish(stamp));
    var s1 := s.(dataReady := s.dataReady[p := |s.log|], producer := Recorded(p, stamp));
    Works(c, s, s1, false);
    var s2 := s1.(stamps := s.stamps[p := stamp], producer := Stamped(p));
    Works(c, s, s2, false);
  }

  lemma PublishRun(c: Config, s: State, stamp: nat)
    requires Shape(c, s) && s.producer.Writing?
    ensures Leads(c, s, Published(s, s.producer.slot, stamp))
  {
    SealRun(c, s, stamp);
    Works(c, s, Sealed(s, s.producer.slot, stamp), false);
  }

  function Abandoned(s: State, p: nat): State
    requires p < |s.seqNo| == |s.stamps| == |s.numbers|
  {
    s.(stamps := s.stamps[p := NO_TIMESTAMP], numbers := s.numbers[p := 0],
       seqNo := Bump(s.seqNo, p), producer := Idle)
  }

  lemma AbandonRun(c: Config, s: State)
    requires Shape(c, s) && s.producer.Writing?
    ensures Leads(c, s, Abandoned(s, s.producer.slot))
  {
    LeadsNowhere(c, s);
    LeadsOn(c, s, s, Abandon);
    var s1 := Next(c, s, Abandon);
    Works(c, s, s1, false);
    assert ProducerNext(c, s1, false) == Abandoned(s, s.producer.slot);
  }

  /** The slot next in line is claimed at once if nobody reads it and, under
      ScanForFree, it is not the newest. */
  function Claims(c: Config, s: State): State
    requires c.Legal()
  {
    s.(producer := Claimed(true, s.nextWrite), nextWrite := (s.nextWrite + 1) % c.slots)
  }

  lemma ClaimRun(c: Config, s: State)
    requires Shape(c, s) && s.producer.Idle? && s.readers[s.nextWrite] == 0
    requires c.policy.ScanForFree? ==> s.latest != Some(s.nextWrite)
    ensures Leads(c, s, Claims(c, s)) && Shape(c, Claims(c, s))
  {
    Starts(c, s);
    if c.policy.ScanForFree? {
      ScanRun(c, s, BeginScan(s, true), Scan(true, s.latest, 0, None, None));
    }
  }

  lemma ScanRun(c: Config, s: State, s1: State, scan: Scan)
    requires Leads(c, s, s1) && Shape(c, s1) && s1.producer == Scanning(scan) && scan.at == 0
    requires scan.newest != Some(s1.nextWrite) && s1.readers[s1.nextWrite] == 0
    ensures var t := s1.(nextWrite := (s1.nextWrite + 1) % c.slots, producer := Claimed(scan.blocking, s1.nextWrite));
            Leads(c, s, t) && Shape(c, t)
  {
    hide Leads, ProducerNext, Shape;
    FirstLook(c, s1, scan);
    var s2 := s1.(producer := Querying(scan));
    Works(c, s, s1, true);
    FirstQuery(c, s2, scan);
    Works(c, s, s2, true);
  }

  lemma Starts(c: Config, s: State)
    requires Shape(c, s)
    ensures Leads(c, s, StartAcquire(c, s, true)) && Shape(c, StartAcquire(c, s, true))
  {
    LeadsNowhere(c, s);
    LeadsOn(c, s, s, AcquireWrite(true));
  }

  /** The first candidate has no readers: its events are queried next. */
  lemma FirstLook(c: Config, s: State, scan: Scan)
    requires Shape(c, s) && s.producer == Scanning(scan) && scan.at == 0
    requires scan.newest != Some(s.nextWrite) && s.readers[s.nextWrite] == 0
    ensures ProducerNext(c, s, true) == s.(producer := Querying(scan))
  {
    assert CandidateSlot(c, s.nextWrite, 0) == s.nextWrite;
  }

  /** Its reads have retired: it is claimed. */
  lemma FirstQuery(c: Config, s: State, scan: Scan)
    requires Shape(c, s) && s.producer == Querying(scan) && scan.at == 0
    ensures ProducerNext(c, s, true)
            == s.(nextWrite := (s.nextWrite + 1) % c.slots, producer := Claimed(scan.blocking, s.nextWrite))
  {
    assert CandidateSlot(c, s.nextWrite, 0) == s.nextWrite;
  }

  /** From idle to a live WriteLease on the slot next in line. */
  lemma WriteRun(c: Config, s: State) returns (t: State)
    requires Reachable(c, s) && Shape(c, s) && s.producer.Idle? && s.readers[s.nextWrite] == 0
    requires c.policy.ScanForFree? ==> s.latest != Some(s.nextWrite)
    ensures Leads(c, s, t) && Reachable(c, t) && Shape(c, t) && t == Acquired(c, Claims(c, s), s.nextWrite)
  {
    ClaimRun(c, s);
    AcquireRun(c, Claims(c, s));
    t := Acquired(c, Claims(c, s), s.nextWrite);
    LeadsJoin(c, s, Claims(c, s), t);
    ReachesOn(c, s, t);
    ReachableShape(c, t);
  }

  /** A frame goes through the slot next in line. */
  lemma FrameRun(c: Config, s: State, stamp: nat) returns (t: State)
    requires Reachable(c, s) && Shape(c, s) && s.producer.Idle? && s.readers[s.nextWrite] == 0
    requires c.policy.ScanForFree? ==> s.latest != Some(s.nextWrite)
    ensures Reachable(c, t) && Shape(c, t) && t.producer.Idle? && t.readers == s.readers
    ensures t.lessees == s.lessees && t.latest == Some(s.nextWrite)
    ensures t.nextWrite == (s.nextWrite + 1) % c.slots && NewestNo(t) == |t.ledger| == |s.ledger| + 1
    ensures Leads(c, s, t)
    ensures t.seqNo[s.nextWrite] == s.seqNo[s.nextWrite] + 2
  {
    hide Leads, Reachable;
    var u := WriteRun(c, s);
    PublishRun(c, u, stamp);
    t := Published(u, s.nextWrite, stamp);
    LeadsJoin(c, s, u, t);
    ReachesOn(c, u, t);
    ReachableShape(c, t);
  }

  /** An attempt that has read latest_ but not yet the slot's sequence number, while
      the producer has moved on and is writing that very slot again. */
  ghost predicate StalePick(c: Config, s: State, id: nat) {
    && Reachable(c, s) && Shape(c, s) && id in s.lessees
    && s.lessees[id].want == NextReference(None, 0, true) && s.lessees[id].stage.SawLatest?
    && s.producer == Writing(s.lessees[id].stage.slot)
    && s.latest.Some? && s.latest.value != s.producer.slot && NewestNo(s) == |s.ledger|
  }

  /** It takes a round of publications between two loads of one attempt, on a ring of
      any policy and size: this run exists. */
  lemma StalePickHappens(c: Config)
    requires c.Legal()
    ensures exists s :: StalePick(c, s, 0) && 1 !in s.lessees
  {
    InitShape(c);
    LeadsNowhere(c, Init(c));
    var s1 := FrameRun(c, Init(c), 5);
    var s2 := PickRun(c, s1);
    var s3 := RoundRun(c, s2);
    var s4 := WriteRun(c, s3);
    assert StalePick(c, s4, 0);
  }

  /** Frames go through the slots next in line up to the last one. */
  lemma {:induction false} RoundRun(c: Config, s: State) returns (t: State)
    requires Reachable(c, s) && Shape(c, s) && s.producer.Idle? && forall p | 0 <= p < c.slots :: s.readers[p] == 0
    requires s.latest.Some? && s.nextWrite == (s.latest.value + 1) % c.slots && NewestNo(s) == |s.ledger|
    ensures Reachable(c, t) && Shape(c, t) && t.producer.Idle? && t.readers == s.readers && t.lessees == s.lessees
    ensures t.nextWrite == 0 && t.latest == Some(c.slots - 1) && NewestNo(t) == |t.ledger|
    decreases c.slots - s.nextWrite
  {
    hide Reachable;
    NextInLine(s.latest.value, c.slots);
    if s.nextWrite == 0 {
      t := s;
    } else {
      NextInLine(s.nextWrite, c.slots);
      t := FrameRun(c, s, 6);
      if t.nextWrite != 0 { t := RoundRun(c, t); }
    }
  }

  lemma NextInLine(p: nat, n: nat)
    requires p < n
    ensures (p + 1) % n == if p + 1 == n then 0 else p + 1
  {
  }

  /** A pair consumer's first step, up to its load of latest_. */
  lemma PickRun(c: Config, s: State) returns (t: State)
    requires Reachable(c, s) && Shape(c, s) && s.lessees == map[]
    requires s.latest.Some? && s.seqNo[s.latest.value] % 2 == 0
    ensures Reachable(c, t) && Shape(c, t)
    ensures t == s.(lessees := map[0 := Lessee(0, NextReference(None, 0, true), 0, SawLatest(s.latest.value))])
  {
    hide Leads, Reachable;
    var l := Lessee(0, NextReference(None, 0, true), 1, Peeking);
    LeadsNowhere(c, s);
    LeadsOn(c, s, s, StartLease(0, 0, l.want, 1));
    var s1 := s.(lessees := map[0 := l]);
    assert Next(c, s, StartLease(0, 0, l.want, 1)) == s1;
    PeekRun(c, s1, 0);
    var s2 := SetStage(s1, 0, Attempting);
    LeadsJoin(c, s, s1, s2);
    t := LoadLatest(c, s2, 0);
    LeadsJoin(c, s, s2, t);
    ReachesOn(c, s, t);
  }

  lemma SealedIsAhead(c: Config, s: State, p: nat, stamp: nat)
    requires Shape(c, s) && p < c.slots && s.seqNo[p] % 2 == 1 && s.latest.Some?
    requires s.latest.value != p && NewestNo(s) == |s.ledger|
    ensures var t := Sealed(s, p, stamp);
            t.latest == s.latest && t.lessees == s.lessees && t.seqNo[p] % 2 == 0 && t.numbers[p] > NewestNo(t)
  {
  }

  /** A publish that has made the slot even but not yet stored latest_. */
  lemma SealPick(c: Config, s: State) returns (t: State)
    requires Reachable(c, s) && Shape(c, s) && s.producer.Writing? && s.latest.Some?
    requires s.latest.value != s.producer.slot && NewestNo(s) == |s.ledger|
    ensures Reachable(c, t) && Shape(c, t) && t.latest == s.latest && t.lessees == s.lessees
    ensures t.seqNo[s.producer.slot] % 2 == 0 && t.numbers[s.producer.slot] > NewestNo(t)
  {
    AtRest(c, s, s.producer.slot);
    hide Reachable, Leads, Sealed;
    SealedIsAhead(c, s, s.producer.slot, 7);
    SealRun(c, s, 7);
    t := Sealed(s, s.producer.slot, 7);
    ReachesOn(c, s, t);
  }

  /** The stale attempt is handed the frame being published before latest_ knows. */
  lemma AheadRun(c: Config, s: State) returns (t: State)
    requires StalePick(c, s, 0) && 1 !in s.lessees
    ensures Reachable(c, t) && t.latest.Some? && 0 in t.lessees && 1 !in t.lessees
    ensures t.lessees[0].stage.Validated? && t.lessees[0].want == NextReference(None, 0, true)
    ensures t.lessees[0].stage.snap.no > NewestNo(t)
  {
    var s1 := SealPick(c, s);
    ValidateRun(c, s1, 0);
    t := Validates(s1, 0);
    ReachesOn(c, s1, t);
  }

  /** Under ScanForFree a pair consumer can take a frame and then an older one. */
  lemma OutOfOrderHappens(c: Config)
    requires c.Legal() && c.policy.ScanForFree?
    ensures exists s, t :: Reachable(c, s) && Leads(c, s, t) && 0 in s.lessees && 1 in t.lessees
              && s.lessees[0].stage.Validated? && s.lessees[0].want == NextReference(None, 0, true)
              && t.lessees[1].stage.Validated? && t.lessees[1].want == ContinueFrom(s.lessees[0])
              && 0 < t.lessees[1].stage.snap.no < s.lessees[0].stage.snap.no
  {
    StalePickHappens(c);
    var pick :| StalePick(c, pick, 0) && 1 !in pick.lessees;
    var s := AheadRun(c, pick);
    AheadGoesBack(c, s, 0, 1);
  }

  /** An attempt that has picked the slot being written gets it if the lease is given
      up, and nothing orders its reads behind the writes enqueued under that lease. */
  lemma AbandonedRace(c: Config, s: State, id: nat, token: nat) returns (t: State)
    requires Reachable(c, s) && id in s.lessees && s.lessees[id].stage.SawLatest?
    requires s.producer == Writing(s.lessees[id].stage.slot)
    ensures Reachable(c, t)
    ensures UnorderedRead(s, t)
  {
    ReachableGpu(c, s);
    var s1 := AbandonPick(c, s, token);
    hide GpuInv;
    t := StaleRead(c, s1, id);
    ReachesOn(c, s1, t);
    hide Leads, Reachable;
    NotOrdered(c, s, t, s.producer.slot, s.lessees[id].consumer, token, s1.tokens[s.producer.slot]);
  }

  /** From `s` to `t` a write was enqueued, and behind it a read of the slot it
      overwrote that is not ordered behind it; its lease says the slot was abandoned. */
  ghost predicate UnorderedRead(s: State, t: State) {
    var i, j := |s.log|, |s.log| + 2;
    && |t.log| == j + 1 && Conflict(t.log[i].op, t.log[j].op)
    && t.log[i].op.Write? && t.log[j].op.Read?
    && t.log[j].op.stamp == NO_TIMESTAMP && i >= t.log[j].op.ready
    && !HappensBefore(t.log, i, j)
  }

  /** Everything enqueued before the write waited for less. */
  lemma NotOrdered(c: Config, s: State, t: State, p: nat, k: nat, token: nat, read: nat)
    requires GpuInv(c, s) && p < c.slots
    requires t.log == s.log + [Entry(ProducerStream, Write(p, token))]
                      + [Entry(ConsumerStream(k), Wait(ProducerStream, s.dataReady[p]))]
                      + [Entry(ConsumerStream(k), Read(p, NO_TIMESTAMP, read, s.dataReady[p]))]
    ensures UnorderedRead(s, t)
  {
    assert forall q | 0 <= q < |s.log| :: t.log[q] == s.log[q];
  }

  /** The producer enqueues a write and gives the lease up. */
  lemma AbandonPick(c: Config, s: State, token: nat) returns (t: State)
    requires Reachable(c, s) && Shape(c, s) && s.producer.Writing?
    ensures Reachable(c, t) && Shape(c, t)
    ensures t.lessees == s.lessees && t.dataReady == s.dataReady && t.latest == s.latest
    ensures var p := s.producer.slot;
            t.log == s.log + [Entry(ProducerStream, Write(p, token))]
            && t.stamps[p] == NO_TIMESTAMP && t.seqNo[p] % 2 == 0
  {
    var p := s.producer.slot;
    AtRest(c, s, p);
    LeadsNowhere(c, s);
    LeadsOn(c, s, s, EnqueueWrite(token));
    var s1 := s.(log := s.log + [Entry(ProducerStream, Write(p, token))], tokens := s.tokens[p := token]);
    AbandonRun(c, s1);
    t := Abandoned(s1, p);
    LeadsJoin(c, s, s1, t);
    ReachesOn(c, s, t);
    AtRest(c, t, p);
  }

  /** A picked slot at rest is leased, waited for and read. */
  lemma StaleRead(c: Config, s: State, id: nat) returns (t: State)
    requires Shape(c, s) && id in s.lessees && s.lessees[id].stage.SawLatest?
    requires s.lessees[id].stage.slot < c.slots && s.seqNo[s.lessees[id].stage.slot] % 2 == 0
    ensures Leads(c, s, t)
    ensures var p, k := s.lessees[id].stage.slot, s.lessees[id].consumer;
            t.log == s.log + [Entry(ConsumerStream(k), Wait(ProducerStream, s.dataReady[p]))]
                     + [Entry(ConsumerStream(k), Read(p, s.stamps[p], s.tokens[p], s.dataReady[p]))]
  {
    ValidateRun(c, s, id);
    var s1 := Validates(s, id);
    Moves(c, s, s1, id);
    var s2 := LesseeNext(c, s1, id);
    LeadsOn(c, s, s2, WaitReady(id));
    var s3 := Next(c, s2, WaitReady(id));
    LeadsOn(c, s, s3, EnqueueRead(id));
    t := Next(c, s3, EnqueueRead(id));
  }
}
