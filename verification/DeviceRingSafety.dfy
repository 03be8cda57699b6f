/** What every interleaving of the device ring keeps: leases exclude the
    producer, and the frame under a lease stays the frame that was validated. */
module DeviceRingSafety {
  import opened Options
  import opened GpuLog
  import opened DeviceRing

  // ------------------------------------------------------------- the invariant

  /** A slot's sequence number is odd exactly while the producer fences it. */
  ghost predicate Parity(c: Config, s: State)
    requires Shape(c, s)
  {
    forall p :: 0 <= p < c.slots ==> (s.seqNo[p] % 2 == 1 <==> s.producer.Fences(p))
  }

  ghost function Counters(m: map<nat, Lessee>, p: nat): set<nat> {
    set id | id in m && m[id].stage.CountsFor(p)
  }

  /** A slot's reader count is the number of attempts that count for it. */
  ghost predicate Counting(c: Config, s: State)
    requires Shape(c, s)
  {
    forall p :: 0 <= p < c.slots ==> s.readers[p] == |Counters(s.lessees, p)|
  }

  predicate Near(want: Want, stamp: nat) {
    want.ByTimestamp? ==> stamp != NO_TIMESTAMP && Distance(want.stamp, stamp) <= want.tolerance
  }

  /** A sequence number `q` was read from slot `p` while the slot was at rest; if
      it still stands, so does the stamp read after it. */
  ghost predicate Sighted(c: Config, s: State, want: Want, p: nat, q: nat, seen: Option<nat>)
    requires Shape(c, s) && p < c.slots
  {
    && q % 2 == 0 && 2 <= q <= s.seqNo[p]
    && (want.ByTimestamp? <==> seen.Some?)
    && (seen.Some? ==> Near(want, seen.value) && (s.seqNo[p] == q ==> s.stamps[p] == seen.value))
  }

  ghost predicate CandidateOk(c: Config, s: State, want: Want, best: Option<Candidate>)
    requires Shape(c, s) && CandidateInRange(c, best)
  {
    best.Some? ==> Sighted(c, s, want, best.value.slot, best.value.seqNo, Some(best.value.stamp))
  }

  /** The slot still holds the frame of the snapshot and the producer is out. */
  ghost predicate Stable(c: Config, s: State, p: nat, snap: Snapshot)
    requires Shape(c, s) && p < c.slots
  {
    && !s.producer.Excludes(p)
    && s.stamps[p] == snap.stamp && s.tokens[p] == snap.token && s.numbers[p] == snap.no
  }

  ghost predicate StageOk(c: Config, s: State, want: Want, g: Stage)
    requires Shape(c, s) && StageInRange(c, g)
  {
    match g
    case LoadingSeq(i, best) => want.ByTimestamp? && CandidateOk(c, s, want, best)
    case LoadingStamp(i, q, best) =>
      want.ByTimestamp? && CandidateOk(c, s, want, best) && q % 2 == 0 && 2 <= q <= s.seqNo[i]
    case Chosen(p, q, seen) => Sighted(c, s, want, p, q, seen)
    case Counted(p, q, seen) => Sighted(c, s, want, p, q, seen)
    case Undoing(p) => 2 <= s.seqNo[p]
    case Validated(p, q, seen, snap) => Stable(c, s, p, snap) && 2 <= s.seqNo[p] && Near(want, snap.stamp)
    case Leased(p, q, stamp, snap, _) =>
      Stable(c, s, p, snap) && 2 <= s.seqNo[p] && stamp == snap.stamp && Near(want, stamp)
    case Dropping(p, q, snap) => Stable(c, s, p, snap) && 2 <= s.seqNo[p]
    case SawLatest(p) => !want.ByTimestamp? && 2 <= s.seqNo[p]
    case _ => true
  }

  ghost predicate Leases(c: Config, s: State)
    requires Shape(c, s)
  {
    forall id :: id in s.lessees ==> StageOk(c, s, s.lessees[id].want, s.lessees[id].stage)
  }

  /** At rest, a slot that was ever written holds a published frame, with the
      stamp and content it was published with, or is marked abandoned. */
  ghost predicate SlotRecord(s: State, p: nat)
    requires p < |s.stamps| == |s.tokens| == |s.numbers| == |s.seqNo|
  {
    && s.numbers[p] <= |s.ledger|
    && (s.numbers[p] > 0 ==> 2 <= s.seqNo[p])
    && (2 <= s.seqNo[p] && !s.producer.Excludes(p) ==>
          if s.numbers[p] > 0 then s.ledger[s.numbers[p] - 1] == Publication(s.stamps[p], s.tokens[p])
          else s.stamps[p] == NO_TIMESTAMP)
  }

  /** What the record of a slot rests on in the middle of an operation. */
  ghost predicate PhaseRecord(c: Config, s: State)
    requires Shape(c, s)
  {
    && (s.latest.Some? ==> 2 <= s.seqNo[s.latest.value])
    && (s.producer.Bumped? ==> 2 <= s.seqNo[s.producer.slot])
    && (s.producer.AbandonStamped? ==> s.stamps[s.producer.slot] == NO_TIMESTAMP
                                       && s.numbers[s.producer.slot] == 0)
    && (s.producer.BackingOut? ==> 2 <= s.seqNo[s.producer.slot])
  }

  ghost predicate Records(c: Config, s: State)
    requires Shape(c, s)
  {
    (forall p :: 0 <= p < c.slots ==> SlotRecord(s, p)) && PhaseRecord(c, s)
  }

  ghost predicate Inv(c: Config, s: State) {
    Shape(c, s) && Parity(c, s) && Counting(c, s) && Leases(c, s) && Records(c, s)
  }

  // ------------------------------------------------------------ reader counts

  lemma CountersUpdate(m: map<nat, Lessee>, id: nat, l: Lessee, p: nat)
    ensures var was := id in m && m[id].stage.CountsFor(p);
            |Counters(m[id := l], p)| == |Counters(m, p)| + (if l.stage.CountsFor(p) then 1 else 0)
                                                          - (if was then 1 else 0)
  {
    var before, after := Counters(m, p), Counters(m[id := l], p);
    var rest := before - {id};
    assert after == if l.stage.CountsFor(p) then rest + {id} else rest;
    assert id in before ==> before == rest + {id};
    assert id !in before ==> before == rest;
  }

  lemma CountingLessee(c: Config, s: State, id: nat)
    requires Shape(c, s) && Counting(c, s) && id in s.lessees
    ensures Shape(c, LesseeNext(c, s, id)) && Counting(c, LesseeNext(c, s, id))
  {
    ShapeLessee(c, s, id);
    var t := LesseeNext(c, s, id);
    forall p | 0 <= p < c.slots
      ensures t.readers[p] == |Counters(t.lessees, p)|
    {
      CountersUpdate(s.lessees, id, t.lessees[id], p);
      assert s.lessees[id].stage.CountsFor(p) ==> id in Counters(s.lessees, p);
      assert t.lessees == s.lessees[id := t.lessees[id]];
    }
  }

  /** No reader count, no reader. */
  lemma NoReaders(c: Config, s: State, p: nat, id: nat)
    requires Shape(c, s) && Counting(c, s) && p < c.slots && s.readers[p] == 0 && id in s.lessees
    ensures !s.lessees[id].stage.CountsFor(p)
  {
    assert s.lessees[id].stage.CountsFor(p) ==> id in Counters(s.lessees, p);
  }

  /** A fence behind which a reader was seen is not the slot's first. */
  lemma ReaderMeansUsed(c: Config, s: State, p: nat)
    requires Inv(c, s) && p < c.slots && s.readers[p] > 0
    ensures 2 <= s.seqNo[p]
  {
    assert Counters(s.lessees, p) != {};
    var id :| id in Counters(s.lessees, p);
    assert StageOk(c, s, s.lessees[id].want, s.lessees[id].stage);
  }

  // --------------------------------------------------------------- each step

  lemma InitInv(c: Config)
    requires c.Legal()
    ensures Inv(c, Init(c))
  {
    InitShape(c);
    forall p | 0 <= p < c.slots
      ensures |Counters(Init(c).lessees, p)| == 0
    {
      assert Counters(Init(c).lessees, p) == {};
    }
  }

  /** Sequence numbers only grow, a stamp at rest only changes with them, and
      nothing moves under a hold. */
  ghost predicate Gentle(c: Config, s: State, t: State, g: Stage)
    requires Shape(c, s) && Shape(c, t)
  {
    forall p :: 0 <= p < c.slots ==>
      && s.seqNo[p] <= t.seqNo[p]
      && (s.seqNo[p] == t.seqNo[p] && s.seqNo[p] % 2 == 0 ==> s.stamps[p] == t.stamps[p])
      && (g.Holds(p) ==> !t.producer.Excludes(p) && s.stamps[p] == t.stamps[p]
                         && s.tokens[p] == t.tokens[p] && s.numbers[p] == t.numbers[p])
  }

  lemma StageKept(c: Config, s: State, t: State, want: Want, g: Stage)
    requires Shape(c, s) && Shape(c, t) && StageInRange(c, g)
    requires StageOk(c, s, want, g) && Gentle(c, s, t, g)
    ensures StageOk(c, t, want, g)
  {
    match g
    case LoadingSeq(i, best) => assert best.Some? ==> s.seqNo[best.value.slot] <= t.seqNo[best.value.slot];
    case LoadingStamp(i, q, best) =>
      assert best.Some? ==> s.seqNo[best.value.slot] <= t.seqNo[best.value.slot];
      assert s.seqNo[i] <= t.seqNo[i];
    case Validated(p, _, _, _) => assert g.Holds(p);
    case Leased(p, _, _, _, _) => assert g.Holds(p);
    case Dropping(p, _, _) => assert g.Holds(p);
    case _ =>
  }

  /** The stage an attempt moves to is sound. */
  lemma NextStageOk(c: Config, s: State, l: Lessee)
    requires Shape(c, s) && Parity(c, s) && Records(c, s)
    requires LesseeInRange(c, l) && StageOk(c, s, l.want, l.stage)
    ensures var m := Advance(c, s, l);
            LesseeInRange(c, m) && StageOk(c, s, m.want, m.stage)
  {
    if l.stage.Counted? { assert s.seqNo[l.stage.slot] % 2 == 1 <==> s.producer.Fences(l.stage.slot); }
  }

  lemma LesseeKeeps(c: Config, s: State, id: nat)
    requires Inv(c, s) && id in s.lessees
    ensures Inv(c, LesseeNext(c, s, id))
  {
    CountingLessee(c, s, id);
    assert LesseeInRange(c, s.lessees[id]);
    NextStageOk(c, s, s.lessees[id]);
    var t := LesseeNext(c, s, id);
    forall k | k in t.lessees
      ensures StageOk(c, t, t.lessees[k].want, t.lessees[k].stage)
    {
      var l := t.lessees[k];
      if k != id { assert l == s.lessees[k] && LesseeInRange(c, l); HoldsExclude(c, s, k); }
      assert StageOk(c, s, l.want, l.stage);
      assert Gentle(c, s, t, l.stage);
      StageKept(c, s, t, l.want, l.stage);
    }
    assert forall p :: 0 <= p < c.slots && SlotRecord(s, p) ==> SlotRecord(t, p);
  }

  /** Exclusion, slot by slot: a hold keeps the producer out. */
  lemma HoldsExclude(c: Config, s: State, id: nat)
    requires Shape(c, s) && Leases(c, s) && id in s.lessees
    ensures forall p :: s.lessees[id].stage.Holds(p) ==> !s.producer.Excludes(p)
  {
    assert StageOk(c, s, s.lessees[id].want, s.lessees[id].stage);
  }

  /** A producer step, seen from one slot. `quiet` says that no attempt counts
      for the slot whose fence is about to be trusted. */
  lemma ProducerGentle(c: Config, s: State, retired: bool, p: nat, g: Stage)
    requires Shape(c, s) && p < c.slots
    requires s.seqNo[p] % 2 == 1 <==> s.producer.Fences(p)
    requires g.Holds(p) ==> !s.producer.Excludes(p) && s.readers[p] > 0
    ensures var t := ProducerNext(c, s, retired);
            Shape(c, t)
            && s.seqNo[p] <= t.seqNo[p]
            && (s.seqNo[p] == t.seqNo[p] && s.seqNo[p] % 2 == 0 ==> s.stamps[p] == t.stamps[p])
            && (g.Holds(p) ==> !t.producer.Excludes(p) && s.stamps[p] == t.stamps[p]
                               && s.tokens[p] == t.tokens[p] && s.numbers[p] == t.numbers[p])
  {
    ShapeProducer(c, s, retired);
  }

  /** The steps of a live WriteLease, and those that end it. */
  lemma HeldRecord(c: Config, s: State, p: nat)
    requires Shape(c, s) && p < c.slots && SlotRecord(s, p)
    requires s.producer.Ordering? || s.producer.Reusing? || s.producer.Recorded? || s.producer.Stamped?
    requires s.seqNo[p] % 2 == 1 <==> s.producer.Fences(p)
    requires Shape(c, ProducerNext(c, s, false))
    ensures var t := ProducerNext(c, s, false);
            SlotRecord(t, p) && (t.seqNo[p] % 2 == 1 <==> t.producer.Fences(p))
  {
  }

  /** While it looks for a slot, the producer touches nothing that is shared. */
  lemma SearchQuiet(c: Config, s: State, retired: bool)
    requires Shape(c, s) && (s.producer.Scanning? || s.producer.Querying? || s.producer.Parked?)
    ensures var t := ProducerNext(c, s, retired);
            && t == s.(producer := t.producer, nextWrite := t.nextWrite)
            && (forall p: nat :: !t.producer.Fences(p)) && (forall p: nat :: !s.producer.Fences(p))
            && (t.producer.Idle? || t.producer.Failed? || t.producer.Claimed? || t.producer.Scanning?
                || t.producer.Querying? || t.producer.Parked?)
  {
  }

  lemma UnheldRecord(c: Config, s: State, retired: bool, p: nat)
    requires Shape(c, s) && p < c.slots && SlotRecord(s, p)
    requires !(s.producer.Ordering? || s.producer.Reusing? || s.producer.Recorded? || s.producer.Stamped?)
    requires s.seqNo[p] % 2 == 1 <==> s.producer.Fences(p)
    requires s.producer.AbandonStamped? && s.producer.slot == p ==>
               s.stamps[p] == NO_TIMESTAMP && s.numbers[p] == 0
    requires s.producer.BackingOut? && s.producer.slot == p ==> 2 <= s.seqNo[p]
    requires Shape(c, ProducerNext(c, s, retired))
    ensures var t := ProducerNext(c, s, retired);
            SlotRecord(t, p) && (t.seqNo[p] % 2 == 1 <==> t.producer.Fences(p))
  {
    var t := ProducerNext(c, s, retired);
    if s.producer.Scanning? || s.producer.Querying? || s.producer.Parked? {
      SearchQuiet(c, s, retired);
      hide ProducerNext;
    } else {
      FencingRecord(c, s, retired, p);
    }
  }

  lemma FencingRecord(c: Config, s: State, retired: bool, p: nat)
    requires Shape(c, s) && p < c.slots && SlotRecord(s, p)
    requires !(s.producer.Ordering? || s.producer.Reusing? || s.producer.Recorded? || s.producer.Stamped?)
    requires !(s.producer.Scanning? || s.producer.Querying? || s.producer.Parked?)
    requires s.seqNo[p] % 2 == 1 <==> s.producer.Fences(p)
    requires s.producer.AbandonStamped? && s.producer.slot == p ==>
               s.stamps[p] == NO_TIMESTAMP && s.numbers[p] == 0
    requires s.producer.BackingOut? && s.producer.slot == p ==> 2 <= s.seqNo[p]
    requires Shape(c, ProducerNext(c, s, retired))
    ensures var t := ProducerNext(c, s, retired);
            SlotRecord(t, p) && (t.seqNo[p] % 2 == 1 <==> t.producer.Fences(p))
  {
    var t := ProducerNext(c, s, retired);
    assert t.stamps == s.stamps && t.tokens == s.tokens && t.numbers == s.numbers && t.ledger == s.ledger;
  }

  lemma ProducerPhase(c: Config, s: State, retired: bool)
    requires Shape(c, s) && PhaseRecord(c, s)
    requires s.producer.Fenced? && s.readers[s.producer.slot] > 0 ==> 2 <= s.seqNo[s.producer.slot]
    requires s.producer.Stamped? ==> s.seqNo[s.producer.slot] % 2 == 1
    requires Shape(c, ProducerNext(c, s, retired))
    ensures PhaseRecord(c, ProducerNext(c, s, retired))
  {
  }

  lemma ProducerRecords(c: Config, s: State, retired: bool)
    requires Shape(c, s) && Parity(c, s) && Records(c, s)
    requires s.producer.Fenced? && s.readers[s.producer.slot] > 0 ==> 2 <= s.seqNo[s.producer.slot]
    requires Shape(c, ProducerNext(c, s, retired))
    ensures var t := ProducerNext(c, s, retired);
            Records(c, t) && Parity(c, t)
  {
    assert s.producer.Stamped? ==> s.producer.Fences(s.producer.slot);
    ProducerPhase(c, s, retired);
    var t := ProducerNext(c, s, retired);
    forall p | 0 <= p < c.slots
      ensures SlotRecord(t, p)
      ensures t.seqNo[p] % 2 == 1 <==> t.producer.Fences(p)
    {
      assert SlotRecord(s, p);
      if s.producer.Ordering? || s.producer.Reusing? || s.producer.Recorded? || s.producer.Stamped? {
        HeldRecord(c, s, p);
      } else {
        UnheldRecord(c, s, retired, p);
      }
    }
  }

  lemma ProducerSame(c: Config, s: State, retired: bool)
    requires Shape(c, s)
    ensures var t := ProducerNext(c, s, retired); t.lessees == s.lessees && t.readers == s.readers
  {
  }

  lemma CountingSame(c: Config, s: State, t: State)
    requires Shape(c, s) && Shape(c, t) && Counting(c, s) && t.lessees == s.lessees && t.readers == s.readers
    ensures Counting(c, t)
  {
  }

  lemma ProducerLease(c: Config, s: State, retired: bool, k: nat)
    requires Shape(c, s) && Parity(c, s) && Counting(c, s) && Leases(c, s) && k in s.lessees
    requires Shape(c, ProducerNext(c, s, retired))
    ensures LesseeInRange(c, s.lessees[k])
    ensures StageOk(c, ProducerNext(c, s, retired), s.lessees[k].want, s.lessees[k].stage)
  {
    hide ProducerNext;
    var t := ProducerNext(c, s, retired);
    var g := s.lessees[k].stage;
    assert LesseeInRange(c, s.lessees[k]);
    HoldsExclude(c, s, k);
    forall p | 0 <= p < c.slots
      ensures && s.seqNo[p] <= t.seqNo[p]
              && (s.seqNo[p] == t.seqNo[p] && s.seqNo[p] % 2 == 0 ==> s.stamps[p] == t.stamps[p])
              && (g.Holds(p) ==> !t.producer.Excludes(p) && s.stamps[p] == t.stamps[p]
                                 && s.tokens[p] == t.tokens[p] && s.numbers[p] == t.numbers[p])
    {
      if s.readers[p] == 0 { NoReaders(c, s, p, k); }
      ProducerGentle(c, s, retired, p, g);
    }
    StageKept(c, s, t, s.lessees[k].want, g);
  }

  lemma ProducerLeases(c: Config, s: State, retired: bool)
    requires Shape(c, s) && Parity(c, s) && Counting(c, s) && Leases(c, s)
    requires Shape(c, ProducerNext(c, s, retired))
    ensures Leases(c, ProducerNext(c, s, retired))
  {
    hide ProducerNext;
    ProducerSame(c, s, retired);
    forall k | k in s.lessees
      ensures LesseeInRange(c, s.lessees[k])
      ensures StageOk(c, ProducerNext(c, s, retired), s.lessees[k].want, s.lessees[k].stage)
    {
      ProducerLease(c, s, retired, k);
    }
  }

  lemma ProducerKeeps(c: Config, s: State, retired: bool)
    requires Inv(c, s)
    ensures Inv(c, ProducerNext(c, s, retired))
  {
    hide ProducerNext, Parity, Counting, Leases, Records;
    if s.producer.Fenced? && s.readers[s.producer.slot] > 0 {
      ReaderMeansUsed(c, s, s.producer.slot);
    }
    ShapeProducer(c, s, retired);
    hide Shape;
    ProducerRecords(c, s, retired);
    ProducerSame(c, s, retired);
    CountingSame(c, s, ProducerNext(c, s, retired));
    ProducerLeases(c, s, retired);
  }

  // ---------------------------------------------------------------- all runs

  lemma WriteLeaseKeeps(c: Config, s: State, a: Action)
    requires Inv(c, s) && (a.EnqueueWrite? || a.Publish? || a.Abandon?)
    ensures Inv(c, Next(c, s, a))
  {
    ShapeStep(c, s, a);
    var t := Next(c, s, a);
    forall k | k in t.lessees
      ensures StageOk(c, t, t.lessees[k].want, t.lessees[k].stage)
    {
      assert LesseeInRange(c, s.lessees[k]);
      HoldsExclude(c, s, k);
      assert s.producer.Writing? ==> s.seqNo[s.producer.slot] % 2 == 1;
      assert Gentle(c, s, t, s.lessees[k].stage);
      StageKept(c, s, t, s.lessees[k].want, s.lessees[k].stage);
    }
    forall p | 0 <= p < c.slots
      ensures SlotRecord(t, p) && (t.seqNo[p] % 2 == 1 <==> t.producer.Fences(p))
    {
      assert SlotRecord(s, p) && (s.seqNo[p] % 2 == 1 <==> s.producer.Fences(p));
    }
  }

  /** A step that replaces one attempt by one that counts for the same slot. */
  lemma HandleKeeps(c: Config, s: State, t: State, id: nat, m: Lessee)
    requires Inv(c, s) && Shape(c, t)
    requires t == s.(lessees := s.lessees[id := m], log := t.log, readDone := t.readDone)
    requires LesseeInRange(c, m) && StageOk(c, s, m.want, m.stage)
    requires forall p :: m.stage.CountsFor(p) <==> id in s.lessees && s.lessees[id].stage.CountsFor(p)
    ensures Inv(c, t)
  {
    forall k | k in t.lessees
      ensures StageOk(c, t, t.lessees[k].want, t.lessees[k].stage)
    {
      var l := t.lessees[k];
      if k != id { assert l == s.lessees[k] && LesseeInRange(c, l); }
      assert StageOk(c, s, l.want, l.stage);
      assert Gentle(c, s, t, l.stage);
      StageKept(c, s, t, l.want, l.stage);
    }
    forall p | 0 <= p < c.slots
      ensures SlotRecord(t, p) && t.readers[p] == |Counters(t.lessees, p)|
    {
      assert SlotRecord(s, p);
      CountersUpdate(s.lessees, id, m, p);
    }
  }

  lemma OtherKeeps(c: Config, s: State, a: Action)
    requires Inv(c, s)
    requires a.StartLease? || a.WaitReady? || a.EnqueueRead? || a.Drop?
    ensures Inv(c, Next(c, s, a))
  {
    ShapeStep(c, s, a);
    var t := Next(c, s, a);
    if a.id in s.lessees { assert StageOk(c, s, s.lessees[a.id].want, s.lessees[a.id].stage); }
    if t != s {
      assert LesseeInRange(c, t.lessees[a.id]);
      if a.EnqueueRead? { assert t.lessees == s.lessees[a.id := t.lessees[a.id]]; }
      HandleKeeps(c, s, t, a.id, t.lessees[a.id]);
    }
  }

  /** acquire_write touches nothing shared before its first atomic operation. */
  lemma AcquireKeeps(c: Config, s: State, blocking: bool)
    requires Inv(c, s) && s.producer.Idle?
    ensures Inv(c, StartAcquire(c, s, blocking))
  {
    ShapeStep(c, s, AcquireWrite(blocking));
    var t := StartAcquire(c, s, blocking);
    assert t == s.(producer := t.producer, nextWrite := t.nextWrite);
    assert forall p :: !t.producer.Fences(p) && !t.producer.Excludes(p) && !s.producer.Fences(p);
    assert forall p :: 0 <= p < c.slots && SlotRecord(s, p) ==> SlotRecord(t, p);
    StagesAside(c, s, t);
  }

  /** Attempts do not look at the producer beyond the slots it excludes. */
  lemma StagesAside(c: Config, s: State, t: State)
    requires Shape(c, s) && Shape(c, t) && Leases(c, s)
    requires t.seqNo == s.seqNo && t.stamps == s.stamps && t.tokens == s.tokens && t.numbers == s.numbers
    requires t.lessees == s.lessees && forall p :: !t.producer.Excludes(p)
    ensures Leases(c, t)
  {
    forall k | k in t.lessees
      ensures StageOk(c, t, t.lessees[k].want, t.lessees[k].stage)
    {
      assert LesseeInRange(c, s.lessees[k]);
      assert StageOk(c, s, s.lessees[k].want, s.lessees[k].stage);
    }
  }

  lemma StepKeeps(c: Config, s: State, a: Action)
    requires Inv(c, s)
    ensures Inv(c, Next(c, s, a))
  {
    match a
    case AcquireWrite(b) => if s.producer.Idle? { AcquireKeeps(c, s, b); }
    case ProducerStep(retired) => ProducerKeeps(c, s, retired);
    case LesseeStep(id) => if id in s.lessees { LesseeKeeps(c, s, id); }
    case EnqueueWrite(_) => WriteLeaseKeeps(c, s, a);
    case Publish(_) => WriteLeaseKeeps(c, s, a);
    case Abandon => WriteLeaseKeeps(c, s, a);
    case _ => OtherKeeps(c, s, a);
  }

  lemma {:induction false} StepsKeep(c: Config, s: State, acts: seq<Action>)
    requires Inv(c, s)
    ensures Inv(c, Steps(c, s, acts))
  {
    if acts != [] {
      StepsKeep(c, s, acts[..|acts| - 1]);
      StepKeeps(c, Steps(c, s, acts[..|acts| - 1]), acts[|acts| - 1]);
    }
  }

  lemma ReachableInv(c: Config, s: State)
    requires Reachable(c, s)
    ensures Inv(c, s)
  {
    var acts :| s == Steps(c, Init(c), acts);
    InitInv(c);
    StepsKeep(c, Init(c), acts);
  }

  /** No slot is ever under a write lease and a read lease at once, and every
      lease shows in its slot's reader count. */
  lemma LeasesExclude(c: Config, s: State, id: nat, p: nat)
    requires Reachable(c, s) && id in s.lessees && s.lessees[id].stage.Holds(p)
    ensures p < |s.readers| && s.readers[p] > 0
    ensures !(s.producer.Writing? && s.producer.slot == p)
  {
    ReachableInv(c, s);
    HoldsExclude(c, s, id);
    assert LesseeInRange(c, s.lessees[id]);
    if s.readers[p] == 0 { NoReaders(c, s, p, id); }
  }

  /** For as long as a lease lives, its slot carries the stamp and the content the
      lease was validated with: those of one publication, unless the slot had been
      abandoned, which its stamp then says. A lease by timestamp is of a published
      frame within the tolerance. */
  lemma LeasedFrameIsStable(c: Config, s: State, id: nat)
    requires Reachable(c, s) && id in s.lessees && s.lessees[id].stage.Leased?
    ensures var l := s.lessees[id];
            var g := l.stage;
            && g.slot < |s.stamps| == |s.tokens|
            && s.stamps[g.slot] == g.stamp == g.snap.stamp
            && s.tokens[g.slot] == g.snap.token
            && (if g.snap.no == 0 then g.stamp == NO_TIMESTAMP
                else g.snap.no <= |s.ledger|
                     && s.ledger[g.snap.no - 1] == Publication(g.stamp, g.snap.token))
            && (l.want.ByTimestamp? ==>
                  g.snap.no > 0 && Distance(l.want.stamp, g.stamp) <= l.want.tolerance)
  {
    ReachableInv(c, s);
    var l := s.lessees[id];
    assert LesseeInRange(c, l) && StageOk(c, s, l.want, l.stage) && SlotRecord(s, l.stage.slot);
  }
}
