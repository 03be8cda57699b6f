/** Ordering on the GPU: no kernel reads a ring slot while another overwrites it,
    and every kernel reads exactly the frame its lease stood for. */
module DeviceRingGpu {
  import opened Options
  import opened GpuLog
  import opened DeviceRing
  import opened DeviceRingSafety

  // ------------------------------------------------------------- the invariant

  /** Writes go on the producer's stream, reads on a consumer's, and a wait only
      names work that was enqueued before it. */
  ghost predicate WellFormed(c: Config, log: Log) {
    forall i {:trigger log[i]} :: 0 <= i < |log| ==>
      match log[i].op
      case Write(p, _) => log[i].stream == ProducerStream && p < c.slots
      case Read(p, _, _, _) => log[i].stream.ConsumerStream? && log[i].stream.id < c.consumers && p < c.slots
      case Wait(_, upTo) => upTo <= i
  }

  ghost predicate EventsInRange(c: Config, s: State)
    requires Shape(c, s)
  {
    forall p :: 0 <= p < c.slots ==>
      && s.dataReady[p] <= |s.log| && s.tokens[p] == LastToken(s.log, p)
      && (forall k :: 0 <= k < c.consumers ==> s.readDone[p][k] <= |s.log|)
  }

  predicate IsRead(log: Log, i: int, p: nat, k: nat) {
    0 <= i < |log| && log[i].op.Read? && log[i].op.slot == p && log[i].stream == ConsumerStream(k)
  }

  predicate IsWrite(log: Log, i: int, p: nat) {
    0 <= i < |log| && log[i].op.Write? && log[i].op.slot == p
  }

  ghost predicate LiveLease(s: State, p: nat, k: nat) {
    exists id :: id in s.lessees && s.lessees[id].stage.Leased? && s.lessees[id].stage.slot == p
                 && s.lessees[id].consumer == k
  }

  /** A read is behind its consumer's read_done event unless its lease still lives. */
  ghost predicate ReadsTracked(c: Config, s: State)
    requires Shape(c, s)
  {
    forall i, p: nat, k: nat | 0 <= p < c.slots && 0 <= k < c.consumers && IsRead(s.log, i, p, k) ::
      i < s.readDone[p][k] || LiveLease(s, p, k)
  }

  /** The producer's stream already waits for consumer `k`'s reads of slot `p`. */
  predicate HasOrdered(producer: Producer, p: nat, k: nat) {
    match producer
    case Ordering(q, n) => p == q && k < n
    case Reusing(q) => p == q
    case Writing(q) => p == q
    case _ => false
  }

  ghost predicate ReadsOrdered(c: Config, s: State) {
    forall i, p: nat, k: nat | HasOrdered(s.producer, p, k) && IsRead(s.log, i, p, k) ::
      Waited(s.log, ProducerStream, |s.log|, ConsumerStream(k), i)
  }

  /** data_ready stands for every write to the slot. */
  ghost predicate Covered(s: State, p: nat)
    requires p < |s.dataReady|
  {
    forall i | IsWrite(s.log, i, p) :: i < s.dataReady[p]
  }

  /** The slot's data_ready has been recorded for the frame being published. */
  predicate Sealed(producer: Producer, p: nat) {
    (producer.Recorded? || producer.Stamped?) && producer.slot == p
  }

  ghost predicate WritesCovered(c: Config, s: State)
    requires Shape(c, s)
  {
    forall p | 0 <= p < c.slots ::
      || (s.producer.Writing? && s.producer.slot == p)
      || (s.stamps[p] == NO_TIMESTAMP && !Sealed(s.producer, p))
      || Covered(s, p)
  }

  /** A consumer that waited on data_ready runs behind every write to its slot that
      the event stands for. */
  ghost predicate ReadersWaited(c: Config, s: State)
    requires Shape(c, s)
  {
    forall id, i | id in s.lessees && s.lessees[id].stage.Leased? && s.lessees[id].stage.waited
                   && IsWrite(s.log, i, s.lessees[id].stage.slot)
                   && IsReady(s, s.lessees[id].stage.slot, i) ::
      Waited(s.log, ConsumerStream(s.lessees[id].consumer), |s.log|, ProducerStream, i)
  }

  /** Slot `p`'s data_ready stands for entry `i`. */
  predicate IsReady(s: State, p: nat, i: int) {
    p < |s.dataReady| && i < s.dataReady[p]
  }

  /** Conflicting work runs in the order it was enqueued, reads behind the writes
      that data_ready stood for. */
  ghost predicate RaceFree(log: Log) {
    forall i, j | 0 <= i < j < |log| && Conflict(log[i].op, log[j].op)
                  && (log[j].op.Read? ==> i < log[j].op.ready) ::
      HappensBefore(log, i, j)
  }

  /** Those are all writes so far if the frame was a published one. */
  ghost predicate ReadsReady(log: Log) {
    forall i, j | 0 <= i < j < |log| && Conflict(log[i].op, log[j].op)
                  && log[j].op.Read? && log[j].op.stamp != NO_TIMESTAMP :: i < log[j].op.ready
  }

  /** What a read finds is the content its lease was validated with. */
  ghost predicate ReadsItsFrame(log: Log) {
    forall j | 0 <= j < |log| && log[j].op.Read? :: log[j].op.token == LastToken(log[..j], log[j].op.slot)
  }

  ghost predicate GpuInv(c: Config, s: State) {
    && Shape(c, s) && WellFormed(c, s.log) && EventsInRange(c, s)
    && ReadsTracked(c, s) && ReadsOrdered(c, s) && WritesCovered(c, s) && ReadersWaited(c, s)
    && RaceFree(s.log) && ReadsReady(s.log) && ReadsItsFrame(s.log)
  }

  // ------------------------------------------------------------ growing the log

  /** `t`'s log is `s`'s with at most one entry more. */
  ghost predicate Grows(s: State, t: State, es: Log) {
    t.log == s.log + es && |es| <= 1
  }

  lemma WaitedGrows(log: Log, es: Log, waiter: Stream, before: nat, after: nat, on: Stream, i: int)
    requires before <= |log| && before <= after <= |log + es|
    requires Waited(log, waiter, before, on, i)
    ensures Waited(log + es, waiter, after, on, i)
  {
    var q :| 0 <= q < before && log[q].stream == waiter && log[q].op.Wait?
             && log[q].op.on == on && i < log[q].op.upTo;
    assert (log + es)[q] == log[q];
  }

  /** Appending `e` keeps the log race-free when `e` itself is ordered. */
  lemma AppendRaceFree(log: Log, e: Entry)
    requires RaceFree(log)
    requires forall i | 0 <= i < |log| && Conflict(log[i].op, e.op) && (e.op.Read? ==> i < e.op.ready) ::
               log[i].stream == e.stream || Waited(log, e.stream, |log|, log[i].stream, i)
    ensures RaceFree(log + [e])
  {
    var grown := log + [e];
    forall i, j | 0 <= i < j < |grown| && Conflict(grown[i].op, grown[j].op)
                  && (grown[j].op.Read? ==> i < grown[j].op.ready)
      ensures HappensBefore(grown, i, j)
    {
      assert grown[i] == log[i];
      if j < |log| {
        assert grown[j] == log[j] && HappensBefore(log, i, j);
        if log[i].stream != log[j].stream {
          WaitedGrows(log, [e], log[j].stream, j, j, log[i].stream, i);
        }
      } else if log[i].stream != e.stream {
        WaitedGrows(log, [e], e.stream, |log|, |log|, log[i].stream, i);
      }
    }
  }

  lemma AppendReadsFrame(log: Log, e: Entry)
    requires ReadsItsFrame(log) && ReadsReady(log)
    requires e.op.Read? ==> e.op.token == LastToken(log, e.op.slot)
    requires e.op.Read? && e.op.stamp != NO_TIMESTAMP ==> forall i | IsWrite(log, i, e.op.slot) :: i < e.op.ready
    ensures ReadsItsFrame(log + [e]) && ReadsReady(log + [e])
  {
    forall i, j | 0 <= i < j < |log + [e]| && Conflict((log + [e])[i].op, (log + [e])[j].op)
                  && (log + [e])[j].op.Read? && (log + [e])[j].op.stamp != NO_TIMESTAMP
      ensures i < (log + [e])[j].op.ready
    {
      assert IsWrite(log, i, (log + [e])[j].op.slot);
    }
    forall j | 0 <= j < |log + [e]| && (log + [e])[j].op.Read?
      ensures (log + [e])[j].op.token == LastToken((log + [e])[..j], (log + [e])[j].op.slot)
    {
      assert (log + [e])[..j] == if j < |log| then log[..j] else log;
    }
  }

  lemma AppendEvents(c: Config, s: State, t: State, e: Entry)
    requires Shape(c, s) && Shape(c, t) && WellFormed(c, s.log) && EventsInRange(c, s)
    requires t.log == s.log + [e] && t.dataReady == s.dataReady && t.readDone == s.readDone
    requires match e.op
             case Write(p, token) => e.stream == ProducerStream && p < c.slots && t.tokens == s.tokens[p := token]
             case Read(p, _, _, _) => e.stream.ConsumerStream? && e.stream.id < c.consumers && p < c.slots
                                   && t.tokens == s.tokens
             case Wait(_, upTo) => upTo <= |s.log| && t.tokens == s.tokens
    ensures WellFormed(c, t.log) && EventsInRange(c, t)
  {
    assert t.log[..|s.log|] == s.log;
  }

  lemma TrackedKept(c: Config, s: State, t: State, es: Log)
    requires Shape(c, s) && Shape(c, t) && Grows(s, t, es) && ReadsTracked(c, s)
    requires forall p: nat, k: nat | p < c.slots && k < c.consumers && LiveLease(s, p, k) ::
               LiveLease(t, p, k) || t.readDone[p][k] == |s.log|
    requires forall p: nat, k: nat | p < c.slots && k < c.consumers ::
               s.readDone[p][k] == t.readDone[p][k] || t.readDone[p][k] == |s.log|
    requires forall p: nat, k: nat | IsRead(t.log, |s.log|, p, k) :: LiveLease(t, p, k)
    ensures ReadsTracked(c, t)
  {
    forall i, p: nat, k: nat | p < c.slots && k < c.consumers && IsRead(t.log, i, p, k)
      ensures i < t.readDone[p][k] || LiveLease(t, p, k)
    {
      if i < |s.log| { assert IsRead(s.log, i, p, k); }
    }
  }

  lemma OrderedKept(c: Config, s: State, t: State, es: Log)
    requires Grows(s, t, es) && ReadsOrdered(c, s)
    requires forall p: nat, k: nat, i | HasOrdered(t.producer, p, k) && IsRead(t.log, i, p, k) ::
               i < |s.log|
               && (HasOrdered(s.producer, p, k) || Waited(t.log, ProducerStream, |t.log|, ConsumerStream(k), i))
    ensures ReadsOrdered(c, t)
  {
    forall i, p: nat, k: nat | HasOrdered(t.producer, p, k) && IsRead(t.log, i, p, k)
      ensures Waited(t.log, ProducerStream, |t.log|, ConsumerStream(k), i)
    {
      if HasOrdered(s.producer, p, k) {
        assert IsRead(s.log, i, p, k);
        WaitedGrows(s.log, es, ProducerStream, |s.log|, |t.log|, ConsumerStream(k), i);
      }
    }
  }

  /** Why a step leaves slot `p` as covered as it was. */
  predicate SlotCovered(s: State, t: State, p: nat)
    requires p < |s.stamps| == |s.dataReady| == |t.stamps| == |t.dataReady|
  {
    || t.producer == Writing(p)
    || t.dataReady[p] == |t.log|
    || (t.stamps[p] == NO_TIMESTAMP && !Sealed(t.producer, p))
    || (t.dataReady[p] == s.dataReady[p] && s.producer != Writing(p)
        && (Sealed(s.producer, p) || (t.stamps[p] == s.stamps[p] && !Sealed(t.producer, p))))
  }

  /** A new write is only enqueued for a slot that `t`'s producer is writing. */
  lemma CoveredKept(c: Config, s: State, t: State, es: Log)
    requires Shape(c, s) && Shape(c, t) && Grows(s, t, es) && WritesCovered(c, s)
    requires forall p: nat | IsWrite(t.log, |s.log|, p) :: t.producer == Writing(p)
    requires forall p: nat | p < c.slots :: SlotCovered(s, t, p)
    ensures WritesCovered(c, t)
  {
    forall p: nat | p < c.slots && t.producer != Writing(p)
      ensures (t.stamps[p] == NO_TIMESTAMP && !Sealed(t.producer, p)) || Covered(t, p)
    {
      assert SlotCovered(s, t, p);
      if t.dataReady[p] == s.dataReady[p] && Covered(s, p) {
        forall i | IsWrite(t.log, i, p) ensures i < t.dataReady[p] {
          assert IsWrite(s.log, i, p);
        }
      }
    }
  }

  /** A lease that has waited stays ordered behind those writes: the event is not
      recorded again while it lives. */
  lemma WaitersKept(c: Config, s: State, t: State, es: Log)
    requires Shape(c, s) && Shape(c, t) && Grows(s, t, es) && ReadersWaited(c, s) && EventsInRange(c, s)
    requires forall id | id in t.lessees && t.lessees[id].stage.Leased? && t.lessees[id].stage.waited ::
               var p := t.lessees[id].stage.slot;
               && p < c.slots && t.dataReady[p] == s.dataReady[p]
               && ((id in s.lessees && s.lessees[id] == t.lessees[id])
                   || forall i | IsWrite(s.log, i, p) && IsReady(s, p, i) ::
                        Waited(t.log, ConsumerStream(t.lessees[id].consumer), |t.log|, ProducerStream, i))
    ensures ReadersWaited(c, t)
  {
    forall id, i | id in t.lessees && t.lessees[id].stage.Leased? && t.lessees[id].stage.waited
                   && IsWrite(t.log, i, t.lessees[id].stage.slot)
                   && IsReady(t, t.lessees[id].stage.slot, i)
      ensures Waited(t.log, ConsumerStream(t.lessees[id].consumer), |t.log|, ProducerStream, i)
    {
      assert i < |s.log| && IsWrite(s.log, i, t.lessees[id].stage.slot);
      if id in s.lessees && s.lessees[id] == t.lessees[id] {
        WaitedGrows(s.log, es, ConsumerStream(t.lessees[id].consumer), |s.log|, |t.log|, ProducerStream, i);
      }
    }
  }

  // --------------------------------------------------------------- each step

  lemma InitGpu(c: Config)
    requires c.Legal()
    ensures GpuInv(c, Init(c))
  {
    InitShape(c);
  }

  /** While a lease lives on a slot the producer has no business there. */
  lemma NoLeaseUnderProducer(c: Config, s: State, p: nat, k: nat)
    requires Shape(c, s) && Leases(c, s) && p < c.slots && s.producer.Excludes(p)
    ensures !LiveLease(s, p, k)
  {
    if LiveLease(s, p, k) {
      var id :| id in s.lessees && s.lessees[id].stage.Leased? && s.lessees[id].stage.slot == p
                && s.lessees[id].consumer == k;
      HoldsExclude(c, s, id);
      assert s.lessees[id].stage.Holds(p);
    }
  }

  /** An attempt that moves on neither starts reading nor stops a live lease. */
  lemma AttemptGpu(c: Config, s: State, t: State, id: nat)
    requires GpuInv(c, s) && Shape(c, t) && id in t.lessees
    requires t == s.(lessees := s.lessees[id := t.lessees[id]], readers := t.readers)
    requires id in s.lessees && s.lessees[id].stage.Leased? ==> t.lessees[id] == s.lessees[id]
    requires t.lessees[id].stage.Leased? && t.lessees[id].stage.waited ==>
               id in s.lessees && s.lessees[id].stage.Leased?
    ensures GpuInv(c, t)
  {
    forall p: nat, k: nat | LiveLease(s, p, k)
      ensures LiveLease(t, p, k)
    {
      var j :| j in s.lessees && s.lessees[j].stage.Leased? && s.lessees[j].stage.slot == p
               && s.lessees[j].consumer == k;
      assert t.lessees[j] == s.lessees[j];
    }
    TrackedKept(c, s, t, []);
    WaitersKept(c, s, t, []);
  }

  /** What depends on neither the producer nor the stamps. */
  lemma SilentRest(c: Config, s: State, t: State)
    requires GpuInv(c, s) && Shape(c, t)
    requires t.log == s.log && t.lessees == s.lessees && t.dataReady == s.dataReady
    requires t.readDone == s.readDone && t.tokens == s.tokens
    ensures EventsInRange(c, t) && ReadsTracked(c, t) && ReadersWaited(c, t)
  {
    assert forall p: nat, k: nat :: LiveLease(s, p, k) ==> LiveLease(t, p, k);
    TrackedKept(c, s, t, []);
    WaitersKept(c, s, t, []);
  }

  /** A producer step that enqueues nothing. */
  lemma SilentProducerGpu(c: Config, s: State, retired: bool)
    requires GpuInv(c, s) && ProducerNext(c, s, retired).log == s.log
    ensures GpuInv(c, ProducerNext(c, s, retired))
  {
    ShapeProducer(c, s, retired);
    assert ProducerNext(c, s, retired) == s.(seqNo := ProducerNext(c, s, retired).seqNo,
      stamps := ProducerNext(c, s, retired).stamps, latest := ProducerNext(c, s, retired).latest,
      nextWrite := ProducerNext(c, s, retired).nextWrite, producer := ProducerNext(c, s, retired).producer,
      numbers := ProducerNext(c, s, retired).numbers, ledger := ProducerNext(c, s, retired).ledger);
    SilentRest(c, s, ProducerNext(c, s, retired));
    SilentOrdered(c, s, retired);
    SilentCovered(c, s, retired);
  }

  lemma SilentOrdered(c: Config, s: State, retired: bool)
    requires Shape(c, s) && WellFormed(c, s.log) && ReadsOrdered(c, s)
    requires ProducerNext(c, s, retired).log == s.log
    ensures ReadsOrdered(c, ProducerNext(c, s, retired))
  {
    var t := ProducerNext(c, s, retired);
    forall p: nat, k: nat, i | HasOrdered(t.producer, p, k) && IsRead(t.log, i, p, k)
      ensures i < |s.log| && HasOrdered(s.producer, p, k)
    {
      assert s.log[i].op.Read? && k < c.consumers;
    }
    OrderedKept(c, s, t, []);
  }

  lemma SilentCovered(c: Config, s: State, retired: bool)
    requires Shape(c, s) && WritesCovered(c, s) && Shape(c, ProducerNext(c, s, retired))
    requires ProducerNext(c, s, retired).log == s.log
    ensures WritesCovered(c, ProducerNext(c, s, retired))
  {
    forall p: nat | p < c.slots ensures SlotCovered(s, ProducerNext(c, s, retired), p) {
      SilentSlot(c, s, retired, p);
    }
    hide ProducerNext;
    CoveredKept(c, s, ProducerNext(c, s, retired), []);
  }

  lemma SilentSlot(c: Config, s: State, retired: bool, p: nat)
    requires Shape(c, s) && p < c.slots && Shape(c, ProducerNext(c, s, retired))
    requires ProducerNext(c, s, retired).log == s.log
    ensures SlotCovered(s, ProducerNext(c, s, retired), p)
  {
    if s.producer.Scanning? || s.producer.Querying? || s.producer.Parked? {
      SearchQuiet(c, s, retired);
      hide ProducerNext;
    }
  }

  /** order_behind_readers: by the time a consumer's event is waited for, all its
      reads of the slot are behind it. */
  lemma OrderingGpu(c: Config, s: State)
    requires GpuInv(c, s) && Leases(c, s) && s.producer.Ordering? && s.producer.consumer < c.consumers
    ensures GpuInv(c, ProducerNext(c, s, false))
  {
    ShapeProducer(c, s, false);
    var p, k := s.producer.slot, s.producer.consumer;
    var e := Entry(ProducerStream, Wait(ConsumerStream(k), s.readDone[p][k]));
    var t := ProducerNext(c, s, false);
    NoLeaseUnderProducer(c, s, p, k);
    AppendWait(c, s, t, e);
    assert t.log[|s.log|] == e;
    OrderedKept(c, s, t, [e]);
  }

  /** Waiting for the slot's previous content. */
  lemma ReusingGpu(c: Config, s: State)
    requires GpuInv(c, s) && s.producer.Reusing? && c.reuse.DeviceWait?
    ensures GpuInv(c, ProducerNext(c, s, false))
  {
    ShapeProducer(c, s, false);
    var e := Entry(ProducerStream, Wait(ProducerStream, s.dataReady[s.producer.slot]));
    var t := ProducerNext(c, s, false);
    AppendWait(c, s, t, e);
    OrderedKept(c, s, t, [e]);
  }

  /** Everything but the producer's own ordering, for a producer step that waits. */
  lemma AppendWait(c: Config, s: State, t: State, e: Entry)
    requires GpuInv(c, s) && Shape(c, t) && e.op.Wait? && e.op.upTo <= |s.log|
    requires t == s.(log := s.log + [e], producer := t.producer)
    requires s.producer.Ordering? || s.producer.Reusing?
    requires (t.producer.Ordering? || t.producer.Writing?) && t.producer.slot == s.producer.slot
    ensures WellFormed(c, t.log) && EventsInRange(c, t) && ReadsTracked(c, t) && WritesCovered(c, t)
    ensures ReadersWaited(c, t) && RaceFree(t.log) && ReadsItsFrame(t.log)
  {
    AppendEvents(c, s, t, e);
    AppendRaceFree(s.log, e);
    AppendReadsFrame(s.log, e);
    assert forall p: nat, k: nat :: LiveLease(s, p, k) ==> LiveLease(t, p, k);
    TrackedKept(c, s, t, [e]);
    CoveredKept(c, s, t, [e]);
    WaitersKept(c, s, t, [e]);
  }

  /** A write runs behind every read and write of its slot enqueued so far. */
  lemma WriteGpu(c: Config, s: State, token: nat)
    requires GpuInv(c, s) && Leases(c, s) && s.producer.Writing?
    ensures GpuInv(c, Next(c, s, EnqueueWrite(token)))
  {
    ShapeStep(c, s, EnqueueWrite(token));
    var p := s.producer.slot;
    var e := Entry(ProducerStream, Write(p, token));
    var t := Next(c, s, EnqueueWrite(token));
    AppendEvents(c, s, t, e);
    forall i | 0 <= i < |s.log| && Conflict(s.log[i].op, e.op)
      ensures s.log[i].stream == e.stream || Waited(s.log, e.stream, |s.log|, s.log[i].stream, i)
    {
      if s.log[i].op.Read? {
        assert IsRead(s.log, i, p, s.log[i].stream.id);
        assert HasOrdered(s.producer, p, s.log[i].stream.id);
      }
    }
    AppendRaceFree(s.log, e);
    AppendReadsFrame(s.log, e);
    assert forall q: nat, k: nat :: LiveLease(s, q, k) ==> LiveLease(t, q, k);
    TrackedKept(c, s, t, [e]);
    OrderedKept(c, s, t, [e]);
    CoveredKept(c, s, t, [e]);
    LeasedInRange(c, s);
    WaitersKept(c, s, t, [e]);
  }

  /** A live lease is of a slot the producer does not write. */
  lemma LeasedInRange(c: Config, s: State)
    requires Shape(c, s)
    ensures forall id | id in s.lessees && s.lessees[id].stage.Leased? :: s.lessees[id].stage.slot < c.slots
    ensures Leases(c, s) ==>
              forall id | id in s.lessees && s.lessees[id].stage.Leased? ::
                s.producer != Writing(s.lessees[id].stage.slot)
  {
    forall id | id in s.lessees && s.lessees[id].stage.Leased?
      ensures s.lessees[id].stage.slot < c.slots
      ensures Leases(c, s) ==> s.producer != Writing(s.lessees[id].stage.slot)
    {
      assert LesseeInRange(c, s.lessees[id]);
      if Leases(c, s) {
        HoldsExclude(c, s, id);
        assert s.lessees[id].stage.Holds(s.lessees[id].stage.slot);
      }
    }
  }

  lemma PublishGpu(c: Config, s: State, a: Action)
    requires GpuInv(c, s) && Leases(c, s) && s.producer.Writing? && (a.Publish? || a.Abandon?)
    ensures GpuInv(c, Next(c, s, a))
  {
    ShapeStep(c, s, a);
    var t := Next(c, s, a);
    assert forall q: nat, k: nat :: LiveLease(s, q, k) ==> LiveLease(t, q, k);
    TrackedKept(c, s, t, []);
    OrderedKept(c, s, t, []);
    CoveredKept(c, s, t, []);
    LeasedInRange(c, s);
    WaitersKept(c, s, t, []);
  }

  lemma WaitReadyGpu(c: Config, s: State, id: nat)
    requires GpuInv(c, s) && Leases(c, s) && id in s.lessees && s.lessees[id].stage.Leased?
    ensures GpuInv(c, Next(c, s, WaitReady(id)))
  {
    ShapeStep(c, s, WaitReady(id));
    var l := s.lessees[id];
    var p := l.stage.slot;
    assert LesseeInRange(c, l) && StageOk(c, s, l.want, l.stage);
    var e := Entry(ConsumerStream(l.consumer), Wait(ProducerStream, s.dataReady[p]));
    var t := Next(c, s, WaitReady(id));
    AppendEvents(c, s, t, e);
    AppendRaceFree(s.log, e);
    AppendReadsFrame(s.log, e);
    LiveKept(s, t, id);
    TrackedKept(c, s, t, [e]);
    OrderedKept(c, s, t, [e]);
    CoveredKept(c, s, t, [e]);
    hide RaceFree, ReadsReady;
    assert t.log[|s.log|] == e;
    LeasedInRange(c, s);
    WaitersKept(c, s, t, [e]);
  }

  /** Replacing a live lease by the same lease, waited or not, keeps leases live. */
  lemma LiveKept(s: State, t: State, id: nat)
    requires id in s.lessees && s.lessees[id].stage.Leased? && id in t.lessees
    requires t.lessees == s.lessees[id := t.lessees[id]]
    requires t.lessees[id].consumer == s.lessees[id].consumer && t.lessees[id].stage.Leased?
    requires t.lessees[id].stage.slot == s.lessees[id].stage.slot
    ensures forall p: nat, k: nat :: LiveLease(s, p, k) ==> LiveLease(t, p, k)
  {
    forall p: nat, k: nat | LiveLease(s, p, k) ensures LiveLease(t, p, k) {
      var j :| j in s.lessees && s.lessees[j].stage.Leased? && s.lessees[j].stage.slot == p
               && s.lessees[j].consumer == k;
      assert j in t.lessees && t.lessees[j].stage.Leased?;
    }
  }

  lemma ReadGpu(c: Config, s: State, id: nat)
    requires GpuInv(c, s) && Leases(c, s) && id in s.lessees
    requires s.lessees[id].stage.Leased? && s.lessees[id].stage.waited
    ensures GpuInv(c, Next(c, s, EnqueueRead(id)))
  {
    ShapeStep(c, s, EnqueueRead(id));
    var l := s.lessees[id];
    var p := l.stage.slot;
    assert LesseeInRange(c, l) && StageOk(c, s, l.want, l.stage);
    var e := Entry(ConsumerStream(l.consumer), Read(p, l.stage.stamp, l.stage.snap.token, s.dataReady[p]));
    var t := Next(c, s, EnqueueRead(id));
    AppendEvents(c, s, t, e);
    forall i | 0 <= i < |s.log| && Conflict(s.log[i].op, e.op) && i < s.dataReady[p]
      ensures s.log[i].stream == e.stream || Waited(s.log, e.stream, |s.log|, s.log[i].stream, i)
    {
      assert IsWrite(s.log, i, p) && IsReady(s, p, i);
    }
    AppendRaceFree(s.log, e);
    assert l.stage.stamp != NO_TIMESTAMP ==> Covered(s, p);
    AppendReadsFrame(s.log, e);
    LiveKept(s, t, id);
    TrackedKept(c, s, t, [e]);
    assert s.lessees[id].stage.Holds(p);
    HoldsExclude(c, s, id);
    OrderedKept(c, s, t, [e]);
    CoveredKept(c, s, t, [e]);
    LeasedInRange(c, s);
    WaitersKept(c, s, t, [e]);
  }

  /** drop_slot_hold records before it gives the hold back. */
  lemma DropGpu(c: Config, s: State, id: nat)
    requires GpuInv(c, s) && id in s.lessees && s.lessees[id].stage.Leased?
    ensures GpuInv(c, Next(c, s, Drop(id)))
  {
    ShapeStep(c, s, Drop(id));
    var t := Next(c, s, Drop(id));
    assert LesseeInRange(c, s.lessees[id]);
    var p0, k0 := s.lessees[id].stage.slot, s.lessees[id].consumer;
    forall p: nat, k: nat | p < c.slots && k < c.consumers && LiveLease(s, p, k)
      ensures LiveLease(t, p, k) || t.readDone[p][k] == |s.log|
    {
      if !(p == p0 && k == k0) {
        var j :| j in s.lessees && s.lessees[j].stage.Leased? && s.lessees[j].stage.slot == p
                 && s.lessees[j].consumer == k;
        assert t.lessees[j] == s.lessees[j];
      }
    }
    TrackedKept(c, s, t, []);
    OrderedKept(c, s, t, []);
    CoveredKept(c, s, t, []);
    WaitersKept(c, s, t, []);
  }

  // ---------------------------------------------------------------- all runs

  lemma ProducerGpu(c: Config, s: State, retired: bool)
    requires GpuInv(c, s) && Inv(c, s)
    ensures GpuInv(c, ProducerNext(c, s, retired))
  {
    if s.producer.Ordering? && s.producer.consumer < c.consumers {
      OrderingGpu(c, s);
    } else if s.producer.Reusing? && c.reuse.DeviceWait? {
      ReusingGpu(c, s);
    } else {
      SilentProducerGpu(c, s, retired);
    }
  }

  lemma LesseeGpu(c: Config, s: State, id: nat)
    requires GpuInv(c, s) && id in s.lessees
    ensures GpuInv(c, LesseeNext(c, s, id))
  {
    ShapeLessee(c, s, id);
    assert LesseeInRange(c, s.lessees[id]);
    AttemptGpu(c, s, LesseeNext(c, s, id), id);
  }

  lemma StepGpu(c: Config, s: State, a: Action)
    requires GpuInv(c, s) && Inv(c, s)
    ensures GpuInv(c, Next(c, s, a))
  {
    if Next(c, s, a) != s {
      ShapeStep(c, s, a);
      match a
      case AcquireWrite(_) => AcquireGpu(c, s, a);
      case ProducerStep(retired) => ProducerGpu(c, s, retired);
      case EnqueueWrite(token) => WriteGpu(c, s, token);
      case Publish(_) => PublishGpu(c, s, a);
      case Abandon => PublishGpu(c, s, a);
      case StartLease(id, _, _, _) => AttemptGpu(c, s, Next(c, s, a), id);
      case LesseeStep(id) => LesseeGpu(c, s, id);
      case WaitReady(id) => WaitReadyGpu(c, s, id);
      case EnqueueRead(id) => ReadGpu(c, s, id);
      case Drop(id) => DropGpu(c, s, id);
    }
  }

  lemma AcquireGpu(c: Config, s: State, a: Action)
    requires GpuInv(c, s) && a.AcquireWrite?
    ensures GpuInv(c, Next(c, s, a))
  {
    ShapeStep(c, s, a);
    var t := Next(c, s, a);
    SilentRest(c, s, t);
    OrderedKept(c, s, t, []);
    CoveredKept(c, s, t, []);
  }

  lemma {:induction false} StepsGpu(c: Config, s: State, acts: seq<Action>)
    requires Inv(c, s) && GpuInv(c, s)
    ensures GpuInv(c, Steps(c, s, acts))
  {
    if acts != [] {
      StepsKeep(c, s, acts[..|acts| - 1]);
      StepsGpu(c, s, acts[..|acts| - 1]);
      StepGpu(c, Steps(c, s, acts[..|acts| - 1]), acts[|acts| - 1]);
    }
  }

  lemma ReachableGpu(c: Config, s: State)
    requires Reachable(c, s)
    ensures GpuInv(c, s)
  {
    var acts :| s == Steps(c, Init(c), acts);
    InitInv(c);
    InitGpu(c);
    StepsGpu(c, Init(c), acts);
  }

  /** Whatever the threads do, under either write policy and either way of waiting
      for reuse: two pieces of GPU work on one slot, one of them a write, run in
      the order they were enqueued. The one exception is a read whose stamp says the
      slot was abandoned, against the writes enqueued under the leases given up since
      the slot's data_ready was last recorded; `AbandonedRace` has it happen. */
  lemma NoSlotRace(c: Config, s: State, i: nat, j: nat)
    requires Reachable(c, s) && i < j < |s.log| && Conflict(s.log[i].op, s.log[j].op)
    requires s.log[j].op.Read? ==> s.log[j].op.stamp != NO_TIMESTAMP || i < s.log[j].op.ready
    ensures HappensBefore(s.log, i, j)
  {
    ReachableGpu(c, s);
  }

  /** A read finds the content its lease was validated with: that was the last one
      enqueued before it, all earlier writes to the slot have finished, with the
      exception of `NoSlotRace`, and no later one has started. */
  lemma ReadFindsItsFrame(c: Config, s: State, j: nat)
    requires Reachable(c, s) && j < |s.log| && s.log[j].op.Read?
    ensures s.log[j].op.token == LastToken(s.log[..j], s.log[j].op.slot)
    ensures forall i | 0 <= i < |s.log| && IsWrite(s.log, i, s.log[j].op.slot) ::
              if i > j then HappensBefore(s.log, j, i)
              else s.log[j].op.stamp != NO_TIMESTAMP || i < s.log[j].op.ready ==> HappensBefore(s.log, i, j)
  {
    ReachableGpu(c, s);
    forall i | 0 <= i < |s.log| && IsWrite(s.log, i, s.log[j].op.slot)
      ensures i > j ==> HappensBefore(s.log, j, i)
      ensures i < j && (s.log[j].op.stamp != NO_TIMESTAMP || i < s.log[j].op.ready) ==> HappensBefore(s.log, i, j)
    {
      assert Conflict(s.log[i].op, s.log[j].op) && Conflict(s.log[j].op, s.log[i].op);
    }
  }
}
