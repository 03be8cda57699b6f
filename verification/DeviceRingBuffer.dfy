/** The device ring's own operations, on its arrays: each does what a run of the
    transition system without interruptions does. */
module DeviceRingBuffer {
  import opened Options
  import opened GpuLog
  import opened DeviceRing
  import opened DeviceRingSafety
  import opened DeviceRingRuns

  /** acquire_write's and try_acquire_write's results; `Blocks` is a call that waits
      for a reader. */
  datatype Grant = Granted(slot: nat) | Dropped | Blocks | Throws

  datatype Claim = Claim(slot: nat) | NoSlot | Parks(slot: nat) | NoWritable

  datatype Lease = Lease(slot: nat, seqNo: nat, stamp: nat)

  /** A thread in the middle of a call: the producer, or a lease attempt. */
  datatype Thread = Producing | Attempt(id: nat)

  /** One more step of a run. */
  lemma Onwards(c: Config, s: State, t: State, a: Action)
    requires Leads(c, s, t) && Shape(c, t)
    ensures Leads(c, s, Next(c, t, a)) && Shape(c, Next(c, t, a))
  {
    LeadsOn(c, s, t, a);
    ShapeStep(c, t, a);
  }

  class DeviceRingBuffer {
    const config: Config
    const seqNo: array<nat>
    const readers: array<nat>
    const stamps: array<nat>
    const dataReady: array<nat>
    var latest: Option<nat>
    var nextWrite: nat
    var readDone: seq<seq<nat>>
    var log: Log
    var published: nat
    // where the threads are, and history
    ghost var producer: Producer
    ghost var tokens: seq<nat>
    ghost var numbers: seq<nat>
    ghost var ledger: seq<Publication>
    ghost var lessees: map<nat, Lessee>

    ghost function View(): State
      reads this, seqNo, readers, stamps, dataReady
    {
      State(seqNo[..], readers[..], stamps[..], latest, nextWrite, producer, dataReady[..], readDone,
            tokens, numbers, ledger, log, lessees)
    }

    ghost predicate Valid()
      reads this, seqNo, readers, stamps, dataReady
    {
      && seqNo != readers && seqNo != stamps && seqNo != dataReady
      && readers != stamps && readers != dataReady && stamps != dataReady
      && Shape(config, View())
    }

    /** The objects a ring consists of. */
    ghost function Parts(): set<object> {
      {this, seqNo, readers, stamps, dataReady}
    }

    /** Some run has led here. */
    ghost predicate Live()
      reads this, seqNo, readers, stamps, dataReady
    {
      Valid() && Reachable(config, View())
    }

    /** published_ counts the publications, the last one perhaps not yet. */
    ghost predicate Tallied()
      reads this
    {
      published <= |ledger| <= published + 1
    }

    /** Some run has led from `from` here. */
    ghost predicate Since(from: State)
      reads this, seqNo, readers, stamps, dataReady
    {
      Live() && Tallied() && Leads(config, from, View())
    }

    ghost predicate IsAt(id: nat, l: Lessee)
      reads this
    {
      id in lessees && lessees[id] == l
    }

    /** Too few slots and no room for consumers are refused before this. */
    constructor (config: Config)
      requires config.Legal()
      ensures Live() && Tallied() && this.config == config && View() == Init(config)
      ensures fresh(seqNo) && fresh(readers) && fresh(stamps) && fresh(dataReady)
    {
      this.config := config;
      seqNo, readers := new nat[config.slots](i => 0), new nat[config.slots](i => 0);
      stamps, dataReady := new nat[config.slots](i => 0), new nat[config.slots](i => 0);
      latest, nextWrite, producer, log := None, 0, Idle, [];
      readDone := seq(config.slots, i => seq(config.consumers, j => 0));
      tokens, numbers := seq(config.slots, i => 0), seq(config.slots, i => 0);
      ledger, lessees, published := [], map[], 0;
      new;
      InitShape(config);
      assert View() == Init(config);
      LeadsNowhere(config, Init(config));
    }

    /** Every consumer's last read of the slot has finished; `complete` answers the
        event queries. */
    method ReadsRetired(slot: nat, complete: seq<seq<bool>>) returns (all: bool)
      requires Answers(config, complete) && slot < config.slots
      ensures all == forall k | 0 <= k < config.consumers :: complete[slot][k]
    {
      var c := 0;
      while c < config.consumers
        invariant c <= config.consumers && forall k | 0 <= k < c :: complete[slot][k]
      {
        if !complete[slot][c] {
          return false;
        }
        c := c + 1;
      }
      return true;
    }

    method OrderBehindReaders(slot: nat)
      requires Valid() && slot < config.slots
      modifies this`log
      ensures Valid() && View() == old(View()).(log := old(log) + ReaderWaits(readDone[slot], 0))
    {
      var row := readDone[slot];
      var c := 0;
      assert log + ReaderWaits(row, 0) == old(log) + ReaderWaits(row, 0);
      while c < config.consumers
        invariant c <= config.consumers == |row|
        invariant log + ReaderWaits(row, c) == old(log) + ReaderWaits(row, 0)
      {
        var wait := Entry(ProducerStream, Wait(ConsumerStream(c), row[c]));
        assert log + ReaderWaits(row, c) == log + [wait] + ReaderWaits(row, c + 1);
        log := log + [wait];
        c := c + 1;
      }
      assert log + ReaderWaits(row, c) == log;
    }

    /** The rest of acquire_write_impl once a claimed slot has no readers. */
    method TakeSlot(slot: nat)
      requires Valid() && producer.Claimed? && producer.slot == slot && readers[slot] == 0
      modifies this`log, this`producer, seqNo
      ensures Valid() && View() == Acquired(config, old(View()), slot)
      ensures Leads(config, old(View()), View())
      ensures WaitsFor(old(log), log, readDone[slot], if config.reuse.DeviceWait? then Some(dataReady[slot]) else None)
    {
      ghost var before := View();
      AcquireRun(config, before);
      WaitsAre(readDone[slot], 0);
      seqNo[slot] := seqNo[slot] + 1;
      producer := Writing(slot);
      OrderBehindReaders(slot);
      if config.reuse.DeviceWait? {
        log := log + [Entry(ProducerStream, Wait(ProducerStream, dataReady[slot]))];
      }
      assert View() == Acquired(config, before, slot);
      LeadsShape(config, before, View());
    }

    method PublishSlot(slot: nat, stamp: nat)
      requires Valid() && producer == Writing(slot)
      modifies this, seqNo, stamps, dataReady
      ensures Valid() && View() == Published(old(View()), slot, stamp) && Leads(config, old(View()), View())
      ensures published == old(published) + 1 && latest == Some(slot) && ledger[|old(ledger)|].stamp == stamp
      ensures stamps[slot] == stamp && dataReady[slot] == |log| && seqNo[slot] == old(seqNo[slot]) + 1
    {
      ghost var before := View();
      PublishRun(config, before, stamp);
      LeadsShape(config, before, Published(before, slot, stamp));
      PublishedFields(before, slot, stamp);
      hide Leads, Shape, Published;
      StoreSlot(slot, stamp);
      latest := Some(slot);
      published := published + 1;
      producer, ledger := Idle, ledger + [Publication(stamp, tokens[slot])];
      numbers := numbers[slot := |before.ledger| + 1];
    }

    method StoreSlot(slot: nat, stamp: nat)
      requires slot < dataReady.Length && slot < stamps.Length && slot < seqNo.Length
      requires seqNo != stamps && seqNo != dataReady && stamps != dataReady
      modifies dataReady, stamps, seqNo
      ensures dataReady[..] == old(dataReady[..])[slot := |log|] && stamps[..] == old(stamps[..])[slot := stamp]
      ensures seqNo[..] == Bump(old(seqNo[..]), slot)
    {
      dataReady[slot] := |log|;
      stamps[slot] := stamp;
      seqNo[slot] := seqNo[slot] + 1;
    }

    method AbandonSlot(slot: nat)
      requires Valid() && producer == Writing(slot)
      modifies this`producer, this`numbers, seqNo, stamps
      ensures Valid() && View() == Abandoned(old(View()), slot) && Leads(config, old(View()), View())
      ensures stamps[slot] == NO_TIMESTAMP && seqNo[slot] == old(seqNo[slot]) + 1
    {
      ghost var before := View();
      AbandonRun(config, before);
      stamps[slot] := NO_TIMESTAMP;
      seqNo[slot] := seqNo[slot] + 1;
      producer, numbers := Idle, numbers[slot := 0];
      assert View() == Abandoned(before, slot);
      LeadsShape(config, before, View());
    }

    /** claim_free_slot's scan. */
    method Scan(complete: seq<seq<bool>>) returns (f: Found)
      requires Valid() && Answers(config, complete)
      ensures f == Scanned(config, View(), complete, 0, None, None)
      ensures First(config, View(), complete, Reusable, config.slots, f.free)
      ensures f.free.None? ==>
                && First(config, View(), complete, Unleased, config.slots, f.reading)
                && First(config, View(), complete, InUse, config.slots, f.busy)
    {
      ScanIsRight(config, View(), complete, 0, None, None);
      var newest := latest;
      var busy: Option<nat>, reading: Option<nat> := None, None;
      var i := 0;
      while i < config.slots
        invariant i <= config.slots && newest == latest
        invariant Scanned(config, View(), complete, i, busy, reading)
                  == Scanned(config, View(), complete, 0, None, None)
      {
        var slot := (nextWrite + i) % config.slots;
        if newest != Some(slot) {
          if readers[slot] != 0 {
            if busy.None? { busy := Some(slot); }
          } else {
            var retired := ReadsRetired(slot, complete);
            if retired {
              return Found(Some(slot), busy, reading);
            }
            if reading.None? { reading := Some(slot); }
          }
        }
        i := i + 1;
      }
      return Found(None, busy, reading);
    }

    /** claim_free_slot. A call that would park returns where it parks. */
    method ClaimFreeSlot(blocking: bool, complete: seq<seq<bool>>) returns (claim: Claim)
      requires Valid() && producer.Idle? && config.policy.ScanForFree? && Answers(config, complete)
      modifies this`nextWrite, this`producer
      ensures Valid() && Leads(config, old(View()), View())
      ensures claim == ClaimOf(config, old(View()), blocking, complete)
      ensures RightClaim(config, old(View()), blocking, complete, claim)
      ensures nextWrite == if claim.Claim? then (claim.slot + 1) % config.slots else old(nextWrite)
      ensures View() == AfterClaim(config, old(View()), blocking, claim)
    {
      ghost var before := View();
      ClaimIsRight(config, before, blocking, complete);
      ClaimRuns(config, before, blocking, complete);
      hide Leads, Scanned, Shape;
      var f := Scan(complete);
      if f.free.Some? {
        claim := Claim(f.free.value);
      } else if !blocking {
        claim := NoSlot;
      } else if f.reading.Some? {
        claim := Claim(f.reading.value);
      } else {
        claim := if f.busy.None? then NoWritable else Parks(f.busy.value);
      }
      LeadsShape(config, before, AfterClaim(config, before, blocking, claim));
      match claim
      case NoSlot =>
      case NoWritable => producer := Failed;
      case Parks(slot) => producer := Parked(slot);
      case Claim(slot) =>
        nextWrite := (slot + 1) % config.slots;
        producer := Claimed(blocking, slot);
    }

    /** acquire_write_impl from the claimed slot on, whatever has happened to the
        slot's reader count since. */
    method FenceAndTake(slot: nat, blocking: bool) returns (grant: Grant)
      requires Valid() && producer == Claimed(blocking, slot)
      modifies this`log, this`producer, seqNo
      ensures Valid() && Leads(config, old(View()), View())
      ensures old(readers[slot]) == 0 ==> grant == Granted(slot) && View() == Acquired(config, old(View()), slot)
      ensures old(readers[slot]) != 0 && blocking ==>
                grant == Blocks
                && View() == old(View()).(seqNo := Bump(old(View()).seqNo, slot), producer := Fenced(true, slot))
      ensures old(readers[slot]) != 0 && !blocking ==>
                grant == Dropped
                && View() == old(View()).(seqNo := Bump(Bump(old(View()).seqNo, slot), slot), producer := Idle)
    {
      if readers[slot] == 0 {
        TakeSlot(slot);
        return Granted(slot);
      }
      ghost var before := View();
      LostRuns(config, before);
      seqNo[slot] := seqNo[slot] + 1;
      if blocking {
        producer := Fenced(true, slot);
        assert View().seqNo == Bump(before.seqNo, slot);
        LeadsShape(config, before, View());
        return Blocks;
      }
      seqNo[slot] := seqNo[slot] + 1;
      producer := Idle;
      assert View().seqNo == Bump(Bump(before.seqNo, slot), slot);
      LeadsShape(config, before, View());
      return Dropped;
    }

    /** acquire_write_impl under RoundRobin. */
    method AcquireNext() returns (grant: Grant)
      requires Valid() && producer.Idle? && config.policy.RoundRobin?
      modifies this`nextWrite, this`producer, this`log, seqNo
      ensures Valid() && Leads(config, old(View()), View())
      ensures grant == (if old(readers[nextWrite]) == 0 then Granted(old(nextWrite)) else Blocks)
      ensures nextWrite == (old(nextWrite) + 1) % config.slots
      ensures grant.Granted? ==> View() == Acquired(config, Claims(config, old(View())), grant.slot)
    {
      ghost var before := View();
      ClaimsNext(config, before);
      hide Leads;
      var slot := nextWrite;
      nextWrite := (nextWrite + 1) % config.slots;
      producer := Claimed(true, slot);
      ghost var claimed := View();
      assert claimed == Claims(config, before);
      grant := FenceAndTake(slot, true);
      LeadsJoin(config, before, claimed, View());
    }

    /** acquire_write_impl under ScanForFree. Other threads run between the scan and the
        fence: a reader that comes in between blocks the call or makes it back out. */
    method AcquireScanned(ghost from: State, ghost calm: bool, blocking: bool, complete: seq<seq<bool>>)
      returns (grant: Grant, ghost claim: Claim)
      requires Since(from) && producer.Idle? && config.policy.ScanForFree? && Answers(config, complete)
      modifies Parts()
      ensures Since(from) && RightClaim(config, old(View()), blocking, complete, claim)
      ensures match claim
              case NoSlot => grant == Dropped && View() == old(View())
              case Parks(_) => grant == Blocks
              case NoWritable => grant == Throws
              case Claim(slot) =>
                && slot < config.slots && old(View()).readers[slot] == 0 && old(View()).latest != Some(slot)
                && (if grant.Granted? then producer == Writing(slot)
                    else if blocking then producer == Fenced(true, slot) else producer == Idle)
                && (grant == Granted(slot) || grant == if blocking then Blocks else Dropped)
                && (calm ==> grant == Granted(slot)
                             && View() == Acquired(config, AfterClaim(config, old(View()), blocking, claim), slot))
    {
      ghost var before := View();
      ClaimFree(config, before, blocking, complete);
      Sizes(config, before);
      hide Leads, Reachable, Shape, Scanned, ClaimOf, Acquired, RightClaim;
      var claimed := ClaimFreeSlot(blocking, complete);
      claim := claimed;
      Continue(from, before);
      match claimed
      case NoSlot => return Dropped, claim;
      case Parks(_) => return Blocks, claim;
      case NoWritable => return Throws, claim;
      case Claim(slot) => grant := FenceLater(from, calm, slot, blocking);
    }

    method FenceLater(ghost from: State, ghost calm: bool, slot: nat, blocking: bool) returns (grant: Grant)
      requires Since(from) && producer == Claimed(blocking, slot)
      modifies Parts()
      ensures Since(from) && (grant == Granted(slot) || grant == if blocking then Blocks else Dropped)
      ensures if grant.Granted? then producer == Writing(slot)
              else if blocking then producer == Fenced(true, slot) else producer == Idle
      ensures calm && slot < |old(View()).readers| && old(View()).readers[slot] == 0 ==>
                grant == Granted(slot) && Shape(config, old(View())) && View() == Acquired(config, old(View()), slot)
    {
      Elapse(from, Producing, calm);
      hide Leads, Reachable, ReaderWaits, ReuseWaits;
      ghost var claimed := View();
      grant := FenceAndTake(slot, blocking);
      Continue(from, claimed);
    }

    /** A run goes on to here. */
    lemma Continue(from: State, before: State)
      requires Valid() && Tallied() && Reachable(config, before) && Leads(config, from, before)
      requires Leads(config, before, View())
      ensures Since(from)
    {
      LeadsJoin(config, from, before, View());
      ReachesOn(config, before, View());
    }

    // ---- what a lease attempt does, one atomic operation at a time

    /** Other threads run for a while, not at all if `calm`; thread `self` stays where
        it is. The caller learns no more than this. */
    method Elapse(ghost from: State, ghost self: Thread, ghost calm: bool)
      requires Since(from)
      modifies Parts()
      ensures Since(from) && Leads(config, old(View()), View()) && old(published) <= published
      ensures calm ==> View() == old(View()) && published == old(published)
      ensures self.Attempt? && self.id in old(lessees) ==> IsAt(self.id, old(lessees)[self.id])
      ensures self.Producing? ==> producer == old(producer) && nextWrite == old(nextWrite)
    {
      LeadsNowhere(config, View());
    }

    /** The attempt moves on from `l` to `m`. */
    ghost method Moves(from: State, id: nat, l: Lessee, m: Lessee)
      requires Since(from) && IsAt(id, l) && LesseeInRange(config, l) && m == Advance(config, View(), l)
      requires !l.stage.Chosen? && !l.stage.Undoing? && !l.stage.Dropping?
      modifies this`lessees
      ensures Since(from) && View() == InStage(old(View()), id, m, old(View()).readers)
    {
      ghost var before := View();
      LeadsOn(config, from, before, LesseeStep(id));
      LeadsOn(config, Init(config), before, LesseeStep(id));
      ShapeLessee(config, before, id);
      hide Leads, Advance;
      lessees := lessees[id := m];
      assert View() == LesseeNext(config, before, id);
    }

    /** The attempt goes on as `m` with the reader count it has just changed. */
    ghost method Counts(from: State, before: State, id: nat, l: Lessee, m: Lessee)
      requires Leads(config, from, before) && Reachable(config, before) && Shape(config, before) && Tallied()
      requires id in before.lessees && before.lessees[id] == l && LesseeInRange(config, l)
      requires seqNo != readers && seqNo != stamps && seqNo != dataReady
      requires readers != stamps && readers != dataReady && stamps != dataReady
      requires m == Advance(config, before, l) && View() == before.(readers := CountsAfter(before.readers, l.stage))
      modifies this`lessees
      ensures Since(from) && View() == InStage(before, id, m, old(View()).readers)
    {
      LeadsOn(config, from, before, LesseeStep(id));
      LeadsOn(config, Init(config), before, LesseeStep(id));
      ShapeLessee(config, before, id);
      hide Leads, Advance;
      lessees := lessees[id := m];
      assert View() == LesseeNext(config, before, id);
    }

    method LoadLatest(ghost from: State, ghost id: nat, ghost calm: bool, ghost l: Lessee) returns (newest: Option<nat>)
      requires Since(from) && IsAt(id, l) && l.stage == Attempting && l.attempts > 0 && !l.want.ByTimestamp?
      modifies Parts()
      ensures Since(from) && InRange(config, newest) && old(published) <= published
      ensures IsAt(id, l.(attempts := l.attempts - 1,
                          stage := if newest.None? then Missed else SawLatest(newest.value)))
      ensures calm ==> newest == old(View()).latest && Quiet(old(View()), View(), id, lessees[id])
    {
      Elapse(from, Attempt(id), calm);
      newest := latest;
      Moves(from, id, l, l.(attempts := l.attempts - 1,
                            stage := if newest.None? then Missed else SawLatest(newest.value)));
    }

    method LoadSeq(ghost from: State, ghost id: nat, ghost calm: bool, ghost l: Lessee, slot: nat) returns (seen: nat)
      requires Since(from) && IsAt(id, l) && l.stage == SawLatest(slot) && slot < config.slots
      modifies Parts()
      ensures Since(from) && old(published) <= published
      ensures IsAt(id, l.(stage := if seen % 2 == 1 then Attempting else Chosen(slot, seen, None)))
      ensures calm ==> seen == old(View()).seqNo[slot] && Quiet(old(View()), View(), id, lessees[id])
    {
      Elapse(from, Attempt(id), calm);
      seen := seqNo[slot];
      Moves(from, id, l, l.(stage := if seen % 2 == 1 then Attempting else Chosen(slot, seen, None)));
    }

    method RaiseCount(ghost from: State, ghost id: nat, ghost calm: bool, ghost l: Lessee, slot: nat)
      requires Since(from) && IsAt(id, l) && l.stage.Chosen? && l.stage.slot == slot < config.slots
      modifies Parts()
      ensures Since(from) && IsAt(id, l.(stage := Counted(slot, l.stage.seqNo, l.stage.seen)))
      ensures old(published) <= published
      ensures calm ==>
                Same(old(View()), View(), id, lessees[id]) && View().readers == Bump(old(View()).readers, slot)
    {
      Elapse(from, Attempt(id), calm);
      ghost var before := View();
      readers[slot] := readers[slot] + 1;
      assert View() == before.(readers := CountsAfter(before.readers, l.stage));
      Counts(from, before, id, l, l.(stage := Counted(slot, l.stage.seqNo, l.stage.seen)));
    }

    method Recheck(ghost from: State, ghost id: nat, ghost calm: bool, ghost l: Lessee, slot: nat, seen: nat)
      returns (same: bool)
      requires Since(from) && IsAt(id, l) && slot < config.slots
      requires l.stage.Counted? && l.stage.slot == slot && l.stage.seqNo == seen
      modifies Parts()
      ensures Since(from) && id in lessees && old(published) <= published
      ensures same ==> exists snap :: IsAt(id, l.(stage := Validated(slot, seen, l.stage.seen, snap)))
      ensures !same ==> IsAt(id, l.(stage := Undoing(slot)))
      ensures calm ==>
                && same == (old(View()).seqNo[slot] == seen) && Quiet(old(View()), View(), id, lessees[id])
                && (same ==> lessees[id].stage == Validated(slot, seen, l.stage.seen, SnapshotAt(old(View()), slot)))
    {
      Elapse(from, Attempt(id), calm);
      same := seqNo[slot] == seen;
      ghost var snap := SnapshotAt(View(), slot);
      Moves(from, id, l, l.(stage := if same then Validated(slot, seen, l.stage.seen, snap) else Undoing(slot)));
      assert same ==> IsAt(id, l.(stage := Validated(slot, seen, l.stage.seen, snap)));
    }

    method LoadStamp(ghost from: State, ghost id: nat, ghost calm: bool, ghost l: Lessee, slot: nat)
      returns (stamp: nat)
      requires Since(from) && IsAt(id, l) && l.stage.Validated? && l.stage.slot == slot < config.slots
      modifies Parts()
      ensures Since(from) && old(published) <= published
      ensures IsAt(id, l.(stage := Leased(slot, l.stage.seqNo, stamp, l.stage.snap, false)))
      ensures calm ==> stamp == old(View()).stamps[slot] && Quiet(old(View()), View(), id, lessees[id])
    {
      Elapse(from, Attempt(id), calm);
      stamp := stamps[slot];
      Moves(from, id, l, l.(stage := Leased(slot, l.stage.seqNo, stamp, l.stage.snap, false)));
    }

    method LowerCount(ghost from: State, ghost id: nat, ghost calm: bool, ghost l: Lessee, slot: nat)
      requires Since(from) && IsAt(id, l) && l.stage == Undoing(slot) && slot < config.slots
      modifies Parts()
      ensures Since(from) && IsAt(id, l.(stage := Attempting)) && old(published) <= published
    {
      Elapse(from, Attempt(id), calm);
      ghost var before := View();
      CountIsPositive(config, before, id, slot);
      readers[slot] := readers[slot] - 1;
      assert View() == before.(readers := CountsAfter(before.readers, l.stage));
      Counts(from, before, id, l, l.(stage := Attempting));
    }

    /** From the choice of a slot to its lease: the count is raised, the sequence
        number looked at again, and the count lowered if it has moved. */
    method HoldSlot(ghost from: State, ghost id: nat, ghost calm: bool, ghost l: Lessee, slot: nat, seen: nat)
      returns (stamp: Option<nat>)
      requires Since(from) && IsAt(id, l) && slot < config.slots
      requires l.stage.Chosen? && l.stage.slot == slot && l.stage.seqNo == seen
      modifies Parts()
      ensures Since(from) && id in lessees && old(published) <= published
      ensures lessees[id] == l.(stage := lessees[id].stage)
      ensures if stamp.None? then lessees[id].stage == Attempting
              else HeldBy(lessees[id].stage) == Some(Lease(slot, seen, stamp.value)) && !lessees[id].stage.waited
      ensures calm && old(View()).seqNo[slot] == seen ==>
                && stamp == Some(old(View()).stamps[slot])
                && lessees[id].stage == Leased(slot, seen, stamp.value, SnapshotAt(old(View()), slot), false)
                && Same(old(View()), View(), id, lessees[id]) && View().readers == Bump(old(View()).readers, slot)
    {
      ghost var before := View();
      Sizes(config, before);
      hide Since, Shape, View, Same, SnapshotAt;
      RaiseCount(from, id, calm, l, slot);
      ghost var raised, at := View(), lessees[id];
      if calm { SameSnapshot(before, raised, id, at, slot); }
      var same := Recheck(from, id, calm, l.(stage := Counted(slot, seen, l.stage.seen)), slot, seen);
      ghost var checked, known := View(), lessees[id];
      if !same {
        LowerCount(from, id, calm, l.(stage := Undoing(slot)), slot);
        return None;
      }
      if calm { SameJoin(before, raised, at, checked, known, id); }
      var t := LoadStamp(from, id, calm, known, slot);
      if calm { SameJoin(before, checked, known, View(), lessees[id], id); }
      return Some(t);
    }

    /** The slot latest_ names and its sequence number. */
    method PickLatest(ghost from: State, ghost id: nat, ghost calm: bool, ghost l: Lessee)
      returns (newest: Option<nat>, seen: nat)
      requires Since(from) && IsAt(id, l) && l.stage == Attempting && l.attempts > 0 && !l.want.ByTimestamp?
      modifies Parts()
      ensures Since(from) && InRange(config, newest) && old(published) <= published
      ensures IsAt(id, l.(attempts := l.attempts - 1, stage := PickedStage(newest, seen)))
      ensures calm ==>
                && newest == old(View()).latest && (newest.Some? ==> seen == old(View()).seqNo[newest.value])
                && Quiet(old(View()), View(), id, lessees[id])
    {
      ghost var before, m := View(), l.(attempts := l.attempts - 1);
      Sizes(config, before);
      hide Since, Shape, View, Same;
      seen := 0;
      newest := LoadLatest(from, id, calm, l);
      ghost var loaded, at := View(), lessees[id];
      if calm { SameFields(before, loaded, id, at); }
      if newest.Some? {
        seen := LoadSeq(from, id, calm, m.(stage := SawLatest(newest.value)), newest.value);
        if calm { SameJoin(before, loaded, at, View(), lessees[id], id); }
      }
    }

    /** One round of lease_latest's loop. */
    method TryLatest(ghost from: State, ghost id: nat, ghost calm: bool, ghost l: Lessee)
      returns (lease: Option<Lease>, over: bool)
      requires Since(from) && IsAt(id, l) && l.stage == Attempting && l.attempts > 0 && !l.want.ByTimestamp?
      modifies Parts()
      ensures Since(from) && id in lessees && old(published) <= published
      ensures lessees[id] == l.(attempts := l.attempts - 1, stage := lessees[id].stage)
      ensures Outcome(lessees[id].stage, lease, over)
      ensures calm ==>
                && lessees[id].stage == LatestStage(old(View()))
                && Same(old(View()), View(), id, lessees[id])
                && View().readers == LatestReaders(old(View()), l.attempts)
    {
      ghost var before := View();
      LatestCases(config, before, l.attempts);
      hide Since, Shape, View, Same, LatestStage, LatestReaders, SnapshotAt;
      var newest, seen := PickLatest(from, id, calm, l);
      if newest.None? || seen % 2 == 1 {
        return None, newest.None?;
      }
      ghost var picked, m := View(), lessees[id];
      if calm { SameSnapshot(before, picked, id, m, newest.value); }
      var stamp := HoldSlot(from, id, calm, m, newest.value, seen);
      if calm { SameJoin(before, picked, m, View(), lessees[id], id); }
      if stamp.None? {
        return None, false;
      }
      return Some(Lease(newest.value, seen, stamp.value)), true;
    }

    /** lease_latest for an attempt that has been started. */
    method AttemptLatest(ghost from: State, ghost id: nat, ghost calm: bool, maxAttempts: nat)
      returns (lease: Option<Lease>)
      requires Since(from) && id in lessees && lessees[id].stage.Attempting?
      requires lessees[id].attempts == maxAttempts && !lessees[id].want.ByTimestamp?
      modifies Parts()
      ensures Since(from) && old(published) <= published && Settled(old(lessees), lessees, id, lease)
      ensures calm ==>
                && lessees[id] == LatestEnd(old(View()), old(lessees)[id])
                && Same(old(View()), View(), id, lessees[id])
                && View().readers == LatestReaders(old(View()), maxAttempts)
    {
      ghost var before, l := View(), lessees[id];
      assert Same(before, before, id, l) by { assert before.lessees[id := l] == before.lessees; }
      var attempt := 0;
      LatestNone(before, l);
      hide Since, View, Same, LatestStage, LatestEnd, LatestReaders;
      while attempt < maxAttempts
        invariant attempt <= maxAttempts && Since(from) && old(published) <= published
        invariant IsAt(id, l.(attempts := maxAttempts - attempt))
        invariant calm ==> Quiet(before, View(), id, lessees[id])
        invariant calm && attempt > 0 ==> LatestStage(before) == Attempting
      {
        var over: bool;
        lease, over := NextTry(from, id, calm, lessees[id], before);
        if over {
          return lease;
        }
        attempt := attempt + 1;
      }
      ghost var mid := View();
      GiveUp(from, id);
      if calm { SameJoin(before, mid, l.(attempts := 0), View(), lessees[id], id); }
      return None;
    }

    /** A further round, seen from the state `before` the first one. */
    method NextTry(ghost from: State, ghost id: nat, ghost calm: bool, ghost l: Lessee, ghost before: State)
      returns (lease: Option<Lease>, over: bool)
      requires Since(from) && IsAt(id, l) && l.stage == Attempting && l.attempts > 0 && !l.want.ByTimestamp?
      requires calm ==> Quiet(before, View(), id, l)
      modifies Parts()
      ensures Since(from) && id in lessees && old(published) <= published
      ensures lessees[id] == l.(attempts := l.attempts - 1, stage := lessees[id].stage)
      ensures Outcome(lessees[id].stage, lease, over)
      ensures calm ==>
                && lessees[id].stage == LatestStage(before) && Same(before, View(), id, lessees[id])
                && View().readers == LatestReaders(before, l.attempts)
    {
      ghost var mid := View();
      if calm { LatestSame(before, mid, id, l, l.attempts); }
      hide Since, View, Same, LatestStage, LatestReaders;
      lease, over := TryLatest(from, id, calm, l);
      if calm { SameJoin(before, mid, l, View(), lessees[id], id); }
    }

    /** No attempts are left. */
    ghost method GiveUp(from: State, id: nat)
      requires Since(from) && id in lessees && lessees[id].stage.Attempting? && lessees[id].attempts == 0
      modifies this`lessees
      ensures Since(from) && IsAt(id, old(lessees)[id].(stage := Missed))
      ensures Quiet(old(View()), View(), id, lessees[id])
    {
      Moves(from, id, lessees[id], lessees[id].(stage := Missed));
    }

    /** lease_latest; `id` names the attempt. */
    method LeaseLatest(ghost from: State, ghost id: nat, ghost calm: bool, consumer: nat, maxAttempts: nat)
      returns (lease: Option<Lease>)
      requires Since(from) && id !in lessees && consumer < config.consumers
      modifies Parts()
      ensures Since(from) && old(published) <= published
      ensures Settled(Begun(old(View()), id, consumer, Latest, maxAttempts).lessees, lessees, id, lease)
      ensures calm ==>
                && lease == LatestLease(old(View()), maxAttempts)
                && Same(old(View()), View(), id, lessees[id])
                && lessees[id] == LatestEnd(old(View()), Lessee(consumer, Latest, maxAttempts, Attempting))
                && View().readers == LatestReaders(old(View()), maxAttempts)
    {
      ghost var before := View();
      Begin(from, id, consumer, Latest, maxAttempts);
      ghost var begun, l := View(), lessees[id];
      LatestSame(before, begun, id, l, maxAttempts);
      LatestBrings(config, before, l);
      hide Since, View, Same, LatestEnd, LatestReaders, LatestLease;
      lease := AttemptLatest(from, id, calm, maxAttempts);
      if calm { SameJoin(before, begun, l, View(), lessees[id], id); }
    }

    ghost method Begin(from: State, id: nat, consumer: nat, want: Want, attempts: nat)
      requires Since(from) && id !in lessees && consumer < config.consumers && Continues(View(), want)
      modifies this`lessees
      ensures Since(from) && View() == Begun(old(View()), id, consumer, want, attempts)
    {
      ghost var before := View();
      LeadsOn(config, from, before, StartLease(id, consumer, want, attempts));
      LeadsOn(config, Init(config), before, StartLease(id, consumer, want, attempts));
      ShapeStep(config, before, StartLease(id, consumer, want, attempts));
      hide Leads;
      lessees := Begun(before, id, consumer, want, attempts).lessees;
      assert View() == Next(config, before, StartLease(id, consumer, want, attempts));
    }

    // ---- lease_by_timestamp

    method LookAtSeq(ghost from: State, ghost id: nat, ghost calm: bool, ghost l: Lessee, at: nat)
      returns (seen: nat)
      requires Since(from) && IsAt(id, l) && at < config.slots && l.stage.LoadingSeq? && l.stage.at == at
      modifies Parts()
      ensures Since(from) && old(published) <= published
      ensures IsAt(id, l.(stage := if seen == 0 || seen % 2 == 1 then LoadingSeq(at + 1, l.stage.best)
                                   else LoadingStamp(at, seen, l.stage.best)))
      ensures calm ==> seen == old(View()).seqNo[at] && Quiet(old(View()), View(), id, lessees[id])
    {
      hide Leads, Reachable;
      Elapse(from, Attempt(id), calm);
      seen := seqNo[at];
      Moves(from, id, l, l.(stage := if seen == 0 || seen % 2 == 1 then LoadingSeq(at + 1, l.stage.best)
                                     else LoadingStamp(at, seen, l.stage.best)));
    }

    method LookAtStamp(ghost from: State, ghost id: nat, ghost calm: bool, ghost l: Lessee, at: nat)
      returns (stamp: nat)
      requires Since(from) && IsAt(id, l) && at < config.slots && l.stage.LoadingStamp? && l.stage.at == at
      requires l.want.ByTimestamp?
      modifies Parts()
      ensures Since(from) && old(published) <= published
      ensures IsAt(id, l.(stage := Consider(l.want, at, l.stage.seqNo, stamp, l.stage.best)))
      ensures calm ==> stamp == old(View()).stamps[at] && Quiet(old(View()), View(), id, lessees[id])
    {
      Elapse(from, Attempt(id), calm);
      stamp := stamps[at];
      Moves(from, id, l, l.(stage := Consider(l.want, at, l.stage.seqNo, stamp, l.stage.best)));
    }

    /** One slot of the search: its sequence number and, if that can be used, its stamp. */
    method LookAt(ghost from: State, ghost id: nat, ghost calm: bool, ghost l: Lessee, at: nat)
      returns (seen: nat, stamp: nat)
      requires Since(from) && IsAt(id, l) && at < config.slots && l.stage.LoadingSeq? && l.stage.at == at
      requires l.want.ByTimestamp?
      modifies Parts()
      ensures Since(from) && old(published) <= published
      ensures IsAt(id, l.(stage := SlotStage(l.want, at, seen, stamp, l.stage.best)))
      ensures calm ==>
                && seen == old(View()).seqNo[at] && (Even(seen) ==> stamp == old(View()).stamps[at])
                && Quiet(old(View()), View(), id, lessees[id])
    {
      ghost var before := View();
      Sizes(config, before);
      hide Since, Shape, View, Same, Consider;
      stamp := 0;
      seen := LookAtSeq(from, id, calm, l, at);
      ghost var looked, m := View(), lessees[id];
      if calm { SameFields(before, looked, id, m); }
      if Even(seen) {
        stamp := LookAtStamp(from, id, calm, l.(stage := LoadingStamp(at, seen, l.stage.best)), at);
        if calm { SameJoin(before, looked, m, View(), lessees[id], id); }
      }
    }

    /** What the search makes of one slot: the best one by then, and whether it is
        `over` with it. */
    method SearchSlot(ghost from: State, ghost id: nat, ghost calm: bool, ghost l: Lessee, want: Want,
                      at: nat, best: Option<Candidate>)
      returns (next: Option<Candidate>, over: bool)
      requires Since(from) && IsAt(id, l) && at < config.slots && l.stage == LoadingSeq(at, best)
      requires l.want == want && want.ByTimestamp? && CandidateInRange(config, best)
      modifies Parts()
      ensures Since(from) && old(published) <= published && CandidateInRange(config, next)
      ensures IsAt(id, l.(stage := if over then FoundStage(next) else LoadingSeq(at + 1, next)))
      ensures over ==> next.Some?
      ensures calm ==>
                && Quiet(old(View()), View(), id, lessees[id])
                && (Searched(old(View()), want, at, best) ==>
                      if over then next == CandidateOf(old(View()), BestFrom(old(View()), want, 0, None))
                      else Searched(old(View()), want, at + 1, next))
    {
      ghost var before := View();
      Sizes(config, before);
      hide Searched, BestFrom, Since, Shape, View, Same, SlotStage, FoundStage, CandidateOf;
      next, over := best, false;
      var bestDiff := if best.None? then MAX_DIFF else Distance(want.stamp, best.value.stamp);
      var seen, stamp := LookAt(from, id, calm, l, at);
      SlotCases(want, at, seen, stamp, best);
      if calm && Searched(before, want, at, best) { SearchOn(before, want, at, seen, stamp, best); }
      var diff := if want.stamp > stamp then want.stamp - stamp else stamp - want.stamp;
      if Even(seen) && stamp != NO_TIMESTAMP && diff <= want.tolerance && (!want.closest || diff < bestDiff) {
        next, over := Some(Candidate(at, seen, stamp)), !want.closest;
      }
    }

    /** lease_by_timestamp's search, in one attempt. */
    method FindByTimestamp(ghost from: State, ghost id: nat, ghost calm: bool, ghost l: Lessee, want: Want)
      returns (best: Option<Candidate>)
      requires Since(from) && IsAt(id, l) && l.want == want && want.ByTimestamp? && l.stage == LoadingSeq(0, None)
      modifies Parts()
      ensures Since(from) && old(published) <= published && CandidateInRange(config, best)
      ensures IsAt(id, l.(stage := FoundStage(best)))
      ensures calm ==>
                && best == CandidateOf(old(View()), BestFrom(old(View()), want, 0, None))
                && Quiet(old(View()), View(), id, lessees[id])
    {
      ghost var before := View();
      Sizes(config, before);
      assert Same(before, before, id, l) by { assert before.lessees[id := l] == before.lessees; }
      best := None;
      var slot := 0;
      assert Searched(before, want, 0, None);
      hide Since, Shape, View, Same, Searched, BestFrom;
      while slot < config.slots
        invariant slot <= config.slots && Since(from) && old(published) <= published && CandidateInRange(config, best)
        invariant IsAt(id, l.(stage := LoadingSeq(slot, best)))
        invariant calm ==> Quiet(before, View(), id, lessees[id])
        invariant calm ==> Searched(before, want, slot, best)
      {
        ghost var mid, m := View(), lessees[id];
        if calm { SearchedSame(before, mid, id, m, want, slot, best); }
        var over: bool;
        best, over := SearchSlot(from, id, calm, m, want, slot, best);
        if calm {
          SearchedSame(before, mid, id, m, want, slot + 1, best);
          SameJoin(before, mid, m, View(), lessees[id], id);
        }
        if over {
          return;
        }
        slot := slot + 1;
      }
      ghost var mid, m := View(), lessees[id];
      if calm { SearchedAll(before, want, best); }
      EndSearch(from, id, best);
      if calm { SameJoin(before, mid, m, View(), lessees[id], id); }
    }

    /** All slots have been looked at. */
    ghost method EndSearch(from: State, id: nat, best: Option<Candidate>)
      requires Since(from) && id in lessees && lessees[id].stage == LoadingSeq(config.slots, best)
      modifies this`lessees
      ensures Since(from) && IsAt(id, old(lessees)[id].(stage := FoundStage(best)))
      ensures Quiet(old(View()), View(), id, lessees[id])
    {
      Moves(from, id, lessees[id], lessees[id].(stage := FoundStage(best)));
    }

    ghost method BeginSearch(from: State, id: nat)
      requires Since(from) && id in lessees && lessees[id].stage.Attempting? && lessees[id].attempts > 0
      requires lessees[id].want.ByTimestamp?
      modifies this`lessees
      ensures Since(from)
      ensures IsAt(id, old(lessees)[id].(attempts := old(lessees)[id].attempts - 1, stage := LoadingSeq(0, None)))
      ensures Quiet(old(View()), View(), id, lessees[id])
    {
      Moves(from, id, lessees[id], lessees[id].(attempts := lessees[id].attempts - 1, stage := LoadingSeq(0, None)));
    }

    method PickMatch(ghost from: State, ghost id: nat, ghost calm: bool, ghost l: Lessee, want: Want)
      returns (best: Option<Candidate>)
      requires Since(from) && IsAt(id, l) && l.stage == Attempting && l.attempts > 0
      requires l.want == want && want.ByTimestamp?
      modifies Parts()
      ensures Since(from) && old(published) <= published && CandidateInRange(config, best)
      ensures IsAt(id, l.(attempts := l.attempts - 1, stage := FoundStage(best)))
      ensures calm ==>
                && best == CandidateOf(old(View()), BestFrom(old(View()), want, 0, None))
                && Quiet(old(View()), View(), id, lessees[id])
    {
      ghost var before := View();
      Sizes(config, before);
      hide Since, Shape, View, Same, BestFrom;
      BeginSearch(from, id);
      ghost var begun, m := View(), lessees[id];
      if calm { SearchedSame(before, begun, id, m, want, 0, None); }
      best := FindByTimestamp(from, id, calm, m, want);
      if calm { SameJoin(before, begun, m, View(), lessees[id], id); }
    }

    /** One round of lease_by_timestamp's loop. */
    method TryMatch(ghost from: State, ghost id: nat, ghost calm: bool, ghost l: Lessee, want: Want)
      returns (lease: Option<Lease>, over: bool)
      requires Since(from) && IsAt(id, l) && l.stage == Attempting && l.attempts > 0
      requires l.want == want && want.ByTimestamp?
      modifies Parts()
      ensures Since(from) && id in lessees && old(published) <= published
      ensures lessees[id] == l.(attempts := l.attempts - 1, stage := lessees[id].stage)
      ensures Outcome(lessees[id].stage, lease, over)
      ensures calm ==>
                && over && lease == MatchingLease(old(View()), want, l.attempts)
                && lessees[id] == MatchEnd(old(View()), l)
                && Same(old(View()), View(), id, lessees[id])
                && View().readers == MatchReaders(old(View()), want, l.attempts)
    {
      ghost var before := View();
      Sizes(config, before);
      MatchCases(before, l);
      hide Since, Shape, View, Same, BestFrom, SnapshotAt, MatchEnd, MatchReaders, MatchingLease, CandidateOf;
      var best := PickMatch(from, id, calm, l, want);
      if best.None? {
        return None, true;
      }
      ghost var found, m := View(), lessees[id];
      if calm { SameSnapshot(before, found, id, m, best.value.slot); }
      var stamp := HoldSlot(from, id, calm, m, best.value.slot, best.value.seqNo);
      if calm { SameJoin(before, found, m, View(), lessees[id], id); }
      if stamp.None? {
        return None, false;
      }
      return Some(Lease(best.value.slot, best.value.seqNo, stamp.value)), true;
    }

    /** lease_by_timestamp for an attempt that has been started. */
    method AttemptMatch(ghost from: State, ghost id: nat, ghost calm: bool, want: Want, maxAttempts: nat)
      returns (lease: Option<Lease>)
      requires Since(from) && id in lessees && lessees[id].stage.Attempting? && lessees[id].attempts == maxAttempts
      requires lessees[id].want == want && want.ByTimestamp?
      modifies Parts()
      ensures Since(from) && old(published) <= published && Settled(old(lessees), lessees, id, lease)
      ensures calm ==>
                && lease == MatchingLease(old(View()), want, maxAttempts)
                && Same(old(View()), View(), id, lessees[id])
                && lessees[id] == MatchEnd(old(View()), old(lessees)[id])
                && View().readers == MatchReaders(old(View()), want, maxAttempts)
    {
      ghost var before, l := View(), lessees[id];
      MatchNone(config, before, l);
      hide Since, View, Same, Shape, MatchEnd, MatchReaders, MatchingLease;
      var attempt := 0;
      while attempt < maxAttempts
        invariant attempt <= maxAttempts && Since(from) && old(published) <= published
        invariant IsAt(id, l.(attempts := maxAttempts - attempt))
        invariant calm ==> attempt == 0 && View() == before
      {
        var over: bool;
        lease, over := TryMatch(from, id, calm, lessees[id], want);
        if over {
          return lease;
        }
        attempt := attempt + 1;
      }
      GiveUp(from, id);
      return None;
    }

    /** lease_by_timestamp; `id` names the attempt. */
    method LeaseByTimestamp(ghost from: State, ghost id: nat, ghost calm: bool, consumer: nat, want: Want,
                            maxAttempts: nat)
      returns (lease: Option<Lease>)
      requires Since(from) && id !in lessees && consumer < config.consumers && want.ByTimestamp?
      modifies Parts()
      ensures Since(from) && old(published) <= published
      ensures Settled(Begun(old(View()), id, consumer, want, maxAttempts).lessees, lessees, id, lease)
      ensures calm ==>
                && lease == MatchingLease(old(View()), want, maxAttempts)
                && Same(old(View()), View(), id, lessees[id])
                && lessees[id] == MatchEnd(old(View()), Lessee(consumer, want, maxAttempts, Attempting))
                && View().readers == MatchReaders(old(View()), want, maxAttempts)
    {
      ghost var before := View();
      Begin(from, id, consumer, want, maxAttempts);
      ghost var begun, l := View(), lessees[id];
      MatchSame(config, before, begun, id, l);
      hide Since, View, Same, Shape, MatchEnd, MatchReaders, MatchingLease;
      lease := AttemptMatch(from, id, calm, want, maxAttempts);
      if calm { SameJoin(before, begun, l, View(), lessees[id], id); }
    }

    /** drop_slot_hold: the event is recorded before the reader count falls. */
    method DropSlotHold(ghost id: nat, slot: nat, consumer: nat)
      requires Valid() && id in lessees && lessees[id].stage.Leased?
      requires lessees[id].stage.slot == slot && lessees[id].consumer == consumer && readers[slot] > 0
      modifies this`readDone, this`lessees, readers
      ensures Valid() && Leads(config, old(View()), View())
      ensures View() == AfterDrop(old(View()), id)
      ensures readDone[slot][consumer] == |log| && readers[slot] == old(readers[slot]) - 1
    {
      ghost var before := View();
      assert LesseeInRange(config, lessees[id]);
      DropRuns(config, before, id);
      var row: seq<nat> := readDone[slot][consumer := |log|];
      readDone := readDone[slot := row];
      readers[slot] := readers[slot] - 1;
      lessees := AfterDrop(before, id).lessees;
      assert View() == AfterDrop(before, id);
      LeadsShape(config, before, View());
    }

    // ---- what a pair consumer does besides

    /** view_latest_inplace for a pair consumer: the attempt goes on if it finds a slot
        at rest that was not the last one taken. */
    method ViewLatest(ghost from: State, ghost id: nat, ghost calm: bool, ghost l: Lessee)
      returns (peek: Option<Taken>)
      requires Since(from) && IsAt(id, l) && l.stage == Peeking && l.want.NextReference?
      modifies Parts()
      ensures Since(from) && old(published) <= published
      ensures IsAt(id, l.(stage := if peek.None? || l.want.last == peek then Missed else Attempting))
      ensures calm ==>
                peek == PeekOf(old(View())) && Quiet(old(View()), View(), id, lessees[id])
    {
      ghost var before := View();
      Sizes(config, before);
      hide Same;
      Elapse(from, Attempt(id), calm);
      var newest := latest;
      PeekMoves(from, id, l, newest);
      if newest.None? {
        return None;
      }
      var slot := newest.value;
      ghost var mid, m := View(), lessees[id];
      if calm { SameFields(before, mid, id, m); }
      var seen := PeekSeq(from, id, calm, m, slot);
      if calm { SameJoin(before, mid, m, View(), lessees[id], id); }
      return if seen % 2 == 1 then None else Some(Taken(slot, seen));
    }

    ghost method PeekMoves(from: State, id: nat, l: Lessee, newest: Option<nat>)
      requires Since(from) && IsAt(id, l) && l.stage == Peeking && newest == latest
      modifies this`lessees
      ensures Since(from) && InRange(config, newest)
      ensures IsAt(id, l.(stage := if newest.None? then Missed else Peeked(newest.value)))
      ensures Quiet(old(View()), View(), id, lessees[id])
    {
      Moves(from, id, l, l.(stage := if newest.None? then Missed else Peeked(newest.value)));
    }

    method PeekSeq(ghost from: State, ghost id: nat, ghost calm: bool, ghost l: Lessee, slot: nat) returns (seen: nat)
      requires Since(from) && IsAt(id, l) && l.stage == Peeked(slot) && slot < config.slots && l.want.NextReference?
      modifies Parts()
      ensures Since(from) && old(published) <= published
      ensures IsAt(id, l.(stage := if seen % 2 == 1 || l.want.last == Some(Taken(slot, seen)) then Missed
                                   else Attempting))
      ensures calm ==>
                seen == old(View()).seqNo[slot] && Quiet(old(View()), View(), id, lessees[id])
    {
      Elapse(from, Attempt(id), calm);
      seen := seqNo[slot];
      Moves(from, id, l, l.(stage := if seen % 2 == 1 || l.want.last == Some(Taken(slot, seen)) then Missed
                                     else Attempting));
    }

    /** cudaStreamWaitEvent on the leased slot's data_ready. */
    method WaitReady(ghost from: State, ghost id: nat, ghost calm: bool, slot: nat, consumer: nat)
      requires Since(from) && id in lessees && lessees[id].stage.Leased? && lessees[id].stage.slot == slot
      requires lessees[id].consumer == consumer
      modifies Parts()
      ensures Since(from) && old(published) <= published
      ensures IsAt(id, old(lessees)[id].(stage := old(lessees)[id].stage.(waited := true)))
    {
      Elapse(from, Attempt(id), calm);
      EnqueueWait(from, id, slot, consumer);
    }

    method EnqueueWait(ghost from: State, ghost id: nat, slot: nat, consumer: nat)
      requires Since(from) && id in lessees && lessees[id].stage.Leased? && lessees[id].stage.slot == slot
      requires lessees[id].consumer == consumer
      modifies this`log, this`lessees
      ensures Since(from) && View() == AfterReady(old(View()), id)
      ensures log == old(log) + [Entry(ConsumerStream(consumer), Wait(ProducerStream, dataReady[slot]))]
    {
      ghost var before := View();
      assert LesseeInRange(config, lessees[id]);
      ReadyRuns(config, from, before, id);
      hide Leads, Reachable, Shape, LesseeInRange;
      log := log + [Entry(ConsumerStream(consumer), Wait(ProducerStream, dataReady[slot]))];
      lessees := lessees[id := lessees[id].(stage := lessees[id].stage.(waited := true))];
      assert View() == AfterReady(before, id);
    }

    /** A lease goes out of scope. */
    method DropLease(ghost from: State, ghost id: nat, ghost calm: bool, slot: nat, consumer: nat)
      requires Since(from) && id in lessees && lessees[id].stage.Leased? && lessees[id].stage.slot == slot
      requires lessees[id].consumer == consumer
      modifies Parts()
      ensures Since(from) && old(published) <= published
      ensures var l := old(lessees)[id]; IsAt(id, l.(stage := Released(slot, l.stage.seqNo, l.stage.snap)))
    {
      Elapse(from, Attempt(id), calm);
      ghost var before := View();
      assert LesseeInRange(config, lessees[id]);
      CountIsPositive(config, before, id, slot);
      hide Reachable;
      DropSlotHold(id, slot, consumer);
      Continue(from, before);
    }
  }

  /** The producer's stream has been made to wait for each consumer's last read of the
      slot and, on the device, for the slot's previous content; for nothing else. */
  ghost predicate WaitsFor(was: Log, now: Log, row: seq<nat>, reuse: Option<nat>) {
    && |now| == |was| + |row| + (if reuse.Some? then 1 else 0) && was <= now
    && (forall k: nat | k < |row| :: now[|was| + k] == Entry(ProducerStream, Wait(ConsumerStream(k), row[k])))
    && (reuse.Some? ==> now[|now| - 1] == Entry(ProducerStream, Wait(ProducerStream, reuse.value)))
  }

  lemma {:induction false} WaitsAre(row: seq<nat>, k: nat)
    requires k <= |row|
    ensures |ReaderWaits(row, k)| == |row| - k
    ensures forall i: nat | i < |row| - k ::
              ReaderWaits(row, k)[i] == Entry(ProducerStream, Wait(ConsumerStream(k + i), row[k + i]))
  {
    WaitsMany(row, k);
    forall i: nat | i < |row| - k
      ensures ReaderWaits(row, k)[i] == Entry(ProducerStream, Wait(ConsumerStream(k + i), row[k + i]))
    {
      WaitAt(row, k, i);
    }
  }

  lemma {:induction false} WaitsMany(row: seq<nat>, k: nat)
    requires k <= |row|
    ensures |ReaderWaits(row, k)| == |row| - k
    decreases |row| - k
  {
    if k < |row| { WaitsMany(row, k + 1); }
  }

  lemma {:induction false} WaitAt(row: seq<nat>, k: nat, i: nat)
    requires k + i < |row| && |ReaderWaits(row, k)| == |row| - k
    ensures ReaderWaits(row, k)[i] == Entry(ProducerStream, Wait(ConsumerStream(k + i), row[k + i]))
    decreases i
  {
    if i > 0 {
      WaitsMany(row, k + 1);
      WaitAt(row, k + 1, i - 1);
    }
  }

  lemma ClaimsNext(c: Config, s: State)
    requires Shape(c, s) && s.producer.Idle? && c.policy.RoundRobin?
    ensures Leads(c, s, Claims(c, s)) && Shape(c, Claims(c, s))
  {
    LeadsNowhere(c, s);
    Onwards(c, s, s, DeviceRing.AcquireWrite(true));
  }

  lemma PublishedFields(s: State, p: nat, stamp: nat)
    requires p < |s.seqNo| == |s.stamps| == |s.tokens| == |s.numbers| == |s.dataReady|
    ensures Published(s, p, stamp) ==
              State(Bump(s.seqNo, p), s.readers, s.stamps[p := stamp], Some(p), s.nextWrite, Idle,
                    s.dataReady[p := |s.log|], s.readDone, s.tokens, s.numbers[p := |s.ledger| + 1],
                    s.ledger + [Publication(stamp, s.tokens[p])], s.log, s.lessees)
  {
  }

  // ------------------------------------------------------------- after a claim

  /** A slot the scan claims has no readers and is not the newest. */
  lemma ClaimFree(c: Config, s: State, blocking: bool, complete: seq<seq<bool>>)
    requires Shape(c, s) && Answers(c, complete)
    ensures var claim := ClaimOf(c, s, blocking, complete);
            claim.Claim? ==> claim.slot < c.slots && s.readers[claim.slot] == 0 && s.latest != Some(claim.slot)
    ensures var claim := ClaimOf(c, s, blocking, complete);
            claim.Parks? ==> claim.slot < c.slots && s.readers[claim.slot] != 0
  {
    ScanFindsFree(c, s, complete, 0, None, None);
  }

  lemma {:induction false} ScanFindsFree(c: Config, s: State, complete: seq<seq<bool>>, i: nat,
                                         busy: Option<nat>, reading: Option<nat>)
    requires Shape(c, s) && Answers(c, complete) && i <= c.slots
    requires reading.Some? ==> reading.value < c.slots && s.readers[reading.value] == 0 && s.latest != reading
    requires busy.Some? ==> busy.value < c.slots && s.readers[busy.value] != 0
    ensures var f := Scanned(c, s, complete, i, busy, reading);
            && (f.free.Some? ==> f.free.value < c.slots && s.readers[f.free.value] == 0 && s.latest != f.free)
            && (f.reading.Some? ==>
                  f.reading.value < c.slots && s.readers[f.reading.value] == 0 && s.latest != f.reading)
            && (f.busy.Some? ==> f.busy.value < c.slots && s.readers[f.busy.value] != 0)
    decreases c.slots - i
  {
    if i < c.slots {
      var slot := (s.nextWrite + i) % c.slots;
      if s.latest == Some(slot) { ScanFindsFree(c, s, complete, i + 1, busy, reading); }
      else if s.readers[slot] != 0 { ScanFindsFree(c, s, complete, i + 1, Or(busy, slot), reading); }
      else if !Retired(complete, slot) { ScanFindsFree(c, s, complete, i + 1, busy, Or(reading, slot)); }
    }
  }

  /** A claimed slot that a consumer has leased meanwhile. */
  lemma LostRuns(c: Config, s: State)
    requires Shape(c, s) && s.producer.Claimed? && s.readers[s.producer.slot] != 0
    ensures var b, p := s.producer.blocking, s.producer.slot;
            if b then Leads(c, s, s.(seqNo := Bump(s.seqNo, p), producer := Fenced(b, p)))
            else Leads(c, s, s.(seqNo := Bump(Bump(s.seqNo, p), p), producer := Idle))
  {
    var b, p := s.producer.blocking, s.producer.slot;
    LeadsNowhere(c, s);
    Works(c, s, s, false);
    if !b {
      var s1 := s.(seqNo := Bump(s.seqNo, p), producer := Fenced(b, p));
      Works(c, s, s1, false);
      Works(c, s, s1.(producer := BackingOut(p)), false);
    }
  }

  // ------------------------------------------------------------------- leasing

  /** What lease_latest gets when nothing comes between. */
  function LatestLease(s: State, attempts: nat): Option<Lease> {
    if attempts == 0 || s.latest.None? then None
    else
      var p := s.latest.value;
      if p < |s.seqNo| == |s.stamps| && s.seqNo[p] % 2 == 0 then Some(Lease(p, s.seqNo[p], s.stamps[p])) else None
  }

  /** What an attempt in stage `g` holds. */
  function HeldBy(g: Stage): Option<Lease> {
    if g.Leased? then Some(Lease(g.slot, g.seqNo, g.stamp)) else None
  }

  /** A round has brought `lease`, or the attempt is `over` without, or goes on. */
  predicate Outcome(g: Stage, lease: Option<Lease>, over: bool) {
    && HeldBy(g) == lease && (lease.Some? ==> over && !g.waited)
    && (lease.None? ==> g == if over then Missed else Attempting)
  }

  /** Attempt `id` is over and has brought `lease`. */
  ghost predicate Settled(was: map<nat, Lessee>, now: map<nat, Lessee>, id: nat, lease: Option<Lease>) {
    && id in was && id in now && Outcome(now[id].stage, lease, true)
    && now[id].want == was[id].want && now[id].consumer == was[id].consumer
  }

  function PickedStage(newest: Option<nat>, seen: nat): Stage {
    if newest.None? then Missed else if seen % 2 == 1 then Attempting else Chosen(newest.value, seen, None)
  }

  /** Where a round of lease_latest ends when nothing comes between. */
  function LatestStage(s: State): Stage {
    if s.latest.None? then Missed
    else
      var p := s.latest.value;
      if p < |s.seqNo| == |s.stamps| == |s.tokens| == |s.numbers| && s.seqNo[p] % 2 == 0 then
        Leased(p, s.seqNo[p], s.stamps[p], SnapshotAt(s, p), false)
      else Attempting
  }

  function LatestReaders(s: State, attempts: nat): seq<nat> {
    if attempts > 0 && LatestStage(s).Leased? && s.latest.value < |s.readers| then Bump(s.readers, s.latest.value)
    else s.readers
  }

  /** How an attempt of lease_latest ends then. */
  function LatestEnd(s: State, l: Lessee): Lessee {
    if l.attempts == 0 then l.(stage := Missed)
    else if LatestStage(s) == Attempting then l.(attempts := 0, stage := Missed)
    else l.(attempts := l.attempts - 1, stage := LatestStage(s))
  }

  function SnapshotAt(s: State, p: nat): Snapshot
    requires p < |s.stamps| == |s.tokens| == |s.numbers|
  {
    Snapshot(s.stamps[p], s.tokens[p], s.numbers[p], NewestNo(s))
  }

  /** An attempt that has come to `l`, and the reader counts by then. */
  function InStage(s: State, id: nat, l: Lessee, readers: seq<nat>): State {
    s.(lessees := s.lessees[id := l], readers := readers)
  }

  /** Nothing else has changed from `s` to `t`. */
  ghost predicate Same(s: State, t: State, id: nat, l: Lessee) {
    t == InStage(s, id, l, t.readers)
  }

  /** Nor have the reader counts. */
  ghost predicate Quiet(s: State, t: State, id: nat, l: Lessee) {
    Same(s, t, id, l) && t.readers == s.readers
  }

  lemma SameFields(s: State, t: State, id: nat, l: Lessee)
    requires Same(s, t, id, l)
    ensures t.seqNo == s.seqNo && t.stamps == s.stamps && t.latest == s.latest
    ensures t.tokens == s.tokens && t.numbers == s.numbers
  {
  }

  lemma SameSnapshot(s: State, t: State, id: nat, l: Lessee, p: nat)
    requires Same(s, t, id, l) && p < |s.stamps| == |s.tokens| == |s.numbers|
    ensures t.seqNo == s.seqNo && t.stamps == s.stamps && t.tokens == s.tokens && t.numbers == s.numbers
    ensures SnapshotAt(t, p) == SnapshotAt(s, p)
  {
  }

  lemma SameJoin(s: State, t: State, l: Lessee, u: State, m: Lessee, id: nat)
    requires Same(s, t, id, l) && Same(t, u, id, m)
    ensures Same(s, u, id, m) && u.seqNo == s.seqNo && u.stamps == s.stamps && u.latest == s.latest
  {
    assert s.lessees[id := l][id := m] == s.lessees[id := m];
  }

  function Begun(s: State, id: nat, consumer: nat, want: Want, attempts: nat): State {
    InStage(s, id, Lessee(consumer, want, attempts, if want.NextReference? then Peeking else Attempting), s.readers)
  }

  lemma LatestCases(c: Config, s: State, n: nat)
    requires Shape(c, s)
    ensures |s.seqNo| == |s.stamps| == |s.readers| == |s.tokens| == |s.numbers| == c.slots
    ensures s.latest.None? ==> LatestStage(s) == Missed
    ensures s.latest.Some? ==>
              var p := s.latest.value;
              p < c.slots && LatestStage(s) == if s.seqNo[p] % 2 == 1 then Attempting
                                               else Leased(p, s.seqNo[p], s.stamps[p], SnapshotAt(s, p), false)
    ensures LatestReaders(s, n)
            == if n > 0 && LatestStage(s).Leased? then Bump(s.readers, s.latest.value) else s.readers
  {
  }

  lemma LatestSame(s: State, t: State, id: nat, l: Lessee, attempts: nat)
    requires Same(s, t, id, l) && t.readers == s.readers
    ensures LatestStage(t) == LatestStage(s) && LatestReaders(t, attempts) == LatestReaders(s, attempts)
    ensures LatestEnd(t, l) == LatestEnd(s, l)
  {
  }

  lemma LatestNone(s: State, l: Lessee)
    ensures l.attempts == 0 ==> LatestEnd(s, l) == l.(stage := Missed) && LatestReaders(s, 0) == s.readers
    ensures l.attempts > 0 && LatestStage(s) == Attempting ==>
              LatestEnd(s, l) == l.(attempts := 0, stage := Missed) && LatestReaders(s, l.attempts) == s.readers
    ensures l.attempts > 0 && LatestStage(s) != Attempting ==>
              LatestEnd(s, l) == l.(attempts := l.attempts - 1, stage := LatestStage(s))
  {
  }

  lemma LatestBrings(c: Config, s: State, l: Lessee)
    requires Shape(c, s)
    ensures HeldBy(LatestEnd(s, l).stage) == LatestLease(s, l.attempts)
  {
  }

  lemma Sizes(c: Config, s: State)
    requires Shape(c, s)
    ensures |s.seqNo| == |s.readers| == |s.stamps| == |s.tokens| == |s.numbers| == c.slots
  {
  }

  /** An attempt that counts for a slot shows in its reader count. */
  lemma CountIsPositive(c: Config, s: State, id: nat, p: nat)
    requires Reachable(c, s) && id in s.lessees && p < c.slots && s.lessees[id].stage.CountsFor(p)
    ensures Shape(c, s) && s.readers[p] > 0
  {
    ReachableInv(c, s);
    if s.readers[p] == 0 { NoReaders(c, s, p, id); }
  }

  // ------------------------------------------------------ leasing by timestamp

  const MAX_DIFF: nat := 0xFFFF_FFFF_FFFF_FFFF

  predicate Fits(want: Want, seen: nat, stamp: nat)
    requires want.ByTimestamp?
  {
    Even(seen) && stamp != NO_TIMESTAMP && Distance(want.stamp, stamp) <= want.tolerance
  }

  /** The slot holds a published frame within the tolerance. */
  predicate Usable(s: State, want: Want, i: nat)
    requires want.ByTimestamp? && i < |s.seqNo| == |s.stamps|
  {
    Fits(want, s.seqNo[i], s.stamps[i])
  }

  function DiffOf(s: State, want: Want, best: Option<nat>): nat
    requires want.ByTimestamp? && (best.Some? ==> best.value < |s.stamps|)
  {
    if best.None? then MAX_DIFF else Distance(want.stamp, s.stamps[best.value])
  }

  /** The search from slot `i` on, with what was best so far. */
  function BestFrom(s: State, want: Want, i: nat, best: Option<nat>): (r: Option<nat>)
    requires want.ByTimestamp? && i <= |s.seqNo| == |s.stamps| && (best.Some? ==> best.value < |s.stamps|)
    ensures r.Some? ==> r.value < |s.stamps|
    decreases |s.seqNo| - i
  {
    if i == |s.seqNo| then best
    else if !Usable(s, want, i) then BestFrom(s, want, i + 1, best)
    else if !want.closest then Some(i)
    else if Distance(want.stamp, s.stamps[i]) < DiffOf(s, want, best) then BestFrom(s, want, i + 1, Some(i))
    else BestFrom(s, want, i + 1, best)
  }

  /** Nothing from slot `i` on, and nothing so far, is closer. */
  lemma {:induction false} BestIsClosest(s: State, want: Want, i: nat, best: Option<nat>, other: nat)
    requires want.ByTimestamp? && want.closest && i <= |s.seqNo| == |s.stamps|
    requires (best.Some? ==> best.value < i) && i <= other < |s.seqNo| && Usable(s, want, other)
    ensures var r := BestFrom(s, want, i, best);
            && DiffOf(s, want, r) <= DiffOf(s, want, best)
            && (DiffOf(s, want, r) <= Distance(want.stamp, s.stamps[other])
                || Distance(want.stamp, s.stamps[other]) >= MAX_DIFF)
    decreases |s.seqNo| - i
  {
    var closer := Usable(s, want, i) && Distance(want.stamp, s.stamps[i]) < DiffOf(s, want, best);
    var next := if closer then Some(i) else best;
    BestOnlyImproves(s, want, i + 1, next);
    if i < other { BestIsClosest(s, want, i + 1, next, other); }
  }

  lemma {:induction false} BestOnlyImproves(s: State, want: Want, i: nat, best: Option<nat>)
    requires want.ByTimestamp? && want.closest && i <= |s.seqNo| == |s.stamps|
    requires best.Some? ==> best.value < i
    ensures DiffOf(s, want, BestFrom(s, want, i, best)) <= DiffOf(s, want, best)
    decreases |s.seqNo| - i
  {
    if i < |s.seqNo| {
      var closer := Usable(s, want, i) && Distance(want.stamp, s.stamps[i]) < DiffOf(s, want, best);
    var next := if closer then Some(i) else best;
      BestOnlyImproves(s, want, i + 1, next);
    }
  }

  lemma {:induction false} FirstUsable(s: State, want: Want, i: nat, other: nat)
    requires want.ByTimestamp? && !want.closest && i <= |s.seqNo| == |s.stamps|
    requires i <= other < |s.seqNo| && Usable(s, want, other)
    ensures BestFrom(s, want, i, None).Some? && BestFrom(s, want, i, None).value <= other
    decreases |s.seqNo| - i
  {
    if !Usable(s, want, i) { FirstUsable(s, want, i + 1, other); }
  }

  /** A frame the search can settle on: the closest match is never one exactly
      2^64 - 1 away. */
  predicate Eligible(s: State, want: Want, i: nat)
    requires want.ByTimestamp? && i < |s.seqNo| == |s.stamps|
  {
    Usable(s, want, i) && (want.closest ==> Distance(want.stamp, s.stamps[i]) < MAX_DIFF)
  }

  lemma {:induction false} BestIsEligible(s: State, want: Want, i: nat, best: Option<nat>)
    requires want.ByTimestamp? && i <= |s.seqNo| == |s.stamps|
    requires best.Some? ==> best.value < i && Eligible(s, want, best.value)
    ensures var r := BestFrom(s, want, i, best); r.Some? ==> Eligible(s, want, r.value)
    decreases |s.seqNo| - i
  {
    if i < |s.seqNo| {
      if !Usable(s, want, i) || (want.closest && Distance(want.stamp, s.stamps[i]) >= DiffOf(s, want, best)) {
        BestIsEligible(s, want, i + 1, best);
      } else if want.closest {
        BestIsEligible(s, want, i + 1, Some(i));
      }
    }
  }

  /** What lease_by_timestamp leases when nothing comes between: a frame within the
      tolerance if there is one it can settle on and none otherwise, the closest of
      all published frames or the first of them. */
  lemma LeasesBestMatch(c: Config, s: State, want: Want, attempts: nat)
    requires Shape(c, s) && want.ByTimestamp? && attempts > 0
    ensures var lease := MatchingLease(s, want, attempts);
            && (lease.Some? <==> exists i: nat :: i < c.slots && Eligible(s, want, i))
            && (lease.Some? ==>
                  var p := lease.value.slot;
                  && p < c.slots && Eligible(s, want, p) && lease.value == Lease(p, s.seqNo[p], s.stamps[p])
                  && forall other: nat | other < c.slots && Usable(s, want, other) ::
                       if want.closest then Distance(want.stamp, s.stamps[p]) <= Distance(want.stamp, s.stamps[other])
                       else p <= other)
  {
    BestIsEligible(s, want, 0, None);
    var best := BestFrom(s, want, 0, None);
    forall other: nat | other < c.slots && Usable(s, want, other)
      ensures best.Some? ==>
                if want.closest then Distance(want.stamp, s.stamps[best.value]) <= Distance(want.stamp, s.stamps[other])
                else best.value <= other
      ensures Eligible(s, want, other) ==> best.Some?
    {
      if want.closest { BestIsClosest(s, want, 0, None, other); } else { FirstUsable(s, want, 0, other); }
    }
  }

  function MatchingLease(s: State, want: Want, attempts: nat): Option<Lease>
    requires want.ByTimestamp? && |s.seqNo| == |s.stamps|
  {
    if attempts == 0 then None
    else
      var best := BestFrom(s, want, 0, None);
      if best.None? then None else Some(Lease(best.value, s.seqNo[best.value], s.stamps[best.value]))
  }

  /** How an attempt of lease_by_timestamp ends when nothing comes between. */
  function MatchEnd(s: State, l: Lessee): Lessee
    requires l.want.ByTimestamp? && |s.seqNo| == |s.stamps| == |s.tokens| == |s.numbers|
  {
    var best := BestFrom(s, l.want, 0, None);
    if l.attempts == 0 then l.(stage := Missed)
    else if best.None? then l.(attempts := l.attempts - 1, stage := Missed)
    else
      var p := best.value;
      l.(attempts := l.attempts - 1, stage := Leased(p, s.seqNo[p], s.stamps[p], SnapshotAt(s, p), false))
  }

  function MatchReaders(s: State, want: Want, attempts: nat): seq<nat>
    requires want.ByTimestamp? && |s.seqNo| == |s.stamps| == |s.readers|
  {
    var best := BestFrom(s, want, 0, None);
    if attempts == 0 || best.None? then s.readers else Bump(s.readers, best.value)
  }

  function CandidateOf(s: State, best: Option<nat>): Option<Candidate>
    requires best.Some? ==> best.value < |s.seqNo| == |s.stamps|
  {
    if best.None? then None else Some(Candidate(best.value, s.seqNo[best.value], s.stamps[best.value]))
  }

  predicate Even(q: nat) {
    q != 0 && q % 2 == 0
  }

  /** What becomes of a search at one slot. */
  function SlotStage(want: Want, at: nat, seen: nat, stamp: nat, best: Option<Candidate>): Stage
    requires want.ByTimestamp?
  {
    if Even(seen) then Consider(want, at, seen, stamp, best) else LoadingSeq(at + 1, best)
  }

  /** What becomes of an attempt whose search has found `best`. */
  function FoundStage(best: Option<Candidate>): Stage {
    if best.None? then Missed else Chosen(best.value.slot, best.value.seqNo, Some(best.value.stamp))
  }

  /** A search that has come to slot `i` with `best` ends as one from the start. */
  ghost predicate Searched(s: State, want: Want, i: nat, best: Option<Candidate>)
    requires want.ByTimestamp? && i <= |s.seqNo| == |s.stamps|
  {
    && (best.Some? ==> best.value.slot < |s.seqNo| && best == CandidateOf(s, Some(best.value.slot)))
    && BestFrom(s, want, i, SlotOf(best)) == BestFrom(s, want, 0, None)
  }

  function SlotOf(best: Option<Candidate>): Option<nat> {
    if best.None? then None else Some(best.value.slot)
  }

  /** The best one after a slot has been looked at, and whether the search ends there. */
  function NextBest(want: Want, at: nat, seen: nat, stamp: nat, best: Option<Candidate>): (Option<Candidate>, bool)
    requires want.ByTimestamp?
  {
    var bestDiff := if best.None? then MAX_DIFF else Distance(want.stamp, best.value.stamp);
    if !Fits(want, seen, stamp) then (best, false)
    else if !want.closest || Distance(want.stamp, stamp) < bestDiff then
      (Some(Candidate(at, seen, stamp)), !want.closest)
    else (best, false)
  }

  lemma SlotCases(want: Want, at: nat, seen: nat, stamp: nat, best: Option<Candidate>)
    requires want.ByTimestamp?
    ensures var (next, over) := NextBest(want, at, seen, stamp, best);
            SlotStage(want, at, seen, stamp, best) == if over then FoundStage(next) else LoadingSeq(at + 1, next)
  {
  }

  lemma MatchCases(s: State, l: Lessee)
    requires l.want.ByTimestamp? && l.attempts > 0
    requires |s.seqNo| == |s.stamps| == |s.tokens| == |s.numbers| == |s.readers|
    ensures var best := CandidateOf(s, BestFrom(s, l.want, 0, None));
            if best.None? then
              MatchEnd(s, l) == l.(attempts := l.attempts - 1, stage := Missed)
              && MatchReaders(s, l.want, l.attempts) == s.readers && MatchingLease(s, l.want, l.attempts) == None
            else
              var p := best.value.slot;
              && p < |s.seqNo| && best.value.seqNo == s.seqNo[p]
              && MatchEnd(s, l) == l.(attempts := l.attempts - 1,
                                      stage := Leased(p, s.seqNo[p], s.stamps[p], SnapshotAt(s, p), false))
              && MatchReaders(s, l.want, l.attempts) == Bump(s.readers, p)
              && MatchingLease(s, l.want, l.attempts) == Some(Lease(p, s.seqNo[p], s.stamps[p]))
  {
  }

  lemma SearchedAll(s: State, want: Want, best: Option<Candidate>)
    requires want.ByTimestamp? && |s.seqNo| == |s.stamps| && Searched(s, want, |s.seqNo|, best)
    ensures best == CandidateOf(s, BestFrom(s, want, 0, None))
  {
  }

  /** Where an attempt ends, seen from a state that differs in that attempt alone. */
  lemma MatchSame(c: Config, s: State, t: State, id: nat, l: Lessee)
    requires Shape(c, s) && Same(s, t, id, l) && t.readers == s.readers && l.want.ByTimestamp?
    ensures |s.seqNo| == |s.stamps| == |s.tokens| == |s.numbers| == |s.readers| == c.slots
    ensures |t.seqNo| == |t.stamps| == |t.tokens| == |t.numbers| == |t.readers| == c.slots
    ensures MatchEnd(t, l) == MatchEnd(s, l)
    ensures MatchReaders(t, l.want, l.attempts) == MatchReaders(s, l.want, l.attempts)
    ensures MatchingLease(t, l.want, l.attempts) == MatchingLease(s, l.want, l.attempts)
  {
    SearchReads(s, t, l.want, 0, None);
  }

  lemma MatchNone(c: Config, s: State, l: Lessee)
    requires Shape(c, s) && l.want.ByTimestamp?
    ensures |s.seqNo| == |s.stamps| == |s.tokens| == |s.numbers| == |s.readers| == c.slots
    ensures l.attempts == 0 ==>
              MatchEnd(s, l) == l.(stage := Missed) && MatchReaders(s, l.want, 0) == s.readers
              && MatchingLease(s, l.want, 0) == None
  {
  }

  /** The search looks at sequence numbers and stamps alone. */
  lemma SearchedSame(s: State, t: State, id: nat, l: Lessee, want: Want, i: nat, best: Option<Candidate>)
    requires Same(s, t, id, l) && want.ByTimestamp? && i <= |s.seqNo| == |s.stamps|
    ensures |t.seqNo| == |t.stamps| == |s.seqNo|
    ensures Searched(t, want, i, best) == Searched(s, want, i, best)
    ensures CandidateOf(t, BestFrom(t, want, 0, None)) == CandidateOf(s, BestFrom(s, want, 0, None))
  {
    SearchReads(s, t, want, 0, None);
    if best.Some? ==> best.value.slot < |s.seqNo| { SearchReads(s, t, want, i, SlotOf(best)); }
  }

  lemma {:induction false} SearchReads(s: State, t: State, want: Want, i: nat, best: Option<nat>)
    requires want.ByTimestamp? && i <= |s.seqNo| == |s.stamps| && (best.Some? ==> best.value < |s.stamps|)
    requires t.seqNo == s.seqNo && t.stamps == s.stamps
    ensures BestFrom(t, want, i, best) == BestFrom(s, want, i, best)
    decreases |s.seqNo| - i
  {
    if i < |s.seqNo| {
      SearchReads(s, t, want, i + 1, best);
      SearchReads(s, t, want, i + 1, Some(i));
    }
  }

  /** One slot further. */
  lemma SearchOn(s: State, want: Want, i: nat, seen: nat, stamp: nat, best: Option<Candidate>)
    requires want.ByTimestamp? && i < |s.seqNo| == |s.stamps| && Searched(s, want, i, best)
    requires seen == s.seqNo[i] && (Even(seen) ==> stamp == s.stamps[i])
    ensures var (next, over) := NextBest(want, i, seen, stamp, best);
            if over then next == CandidateOf(s, BestFrom(s, want, 0, None)) else Searched(s, want, i + 1, next)
  {
  }

  function AfterDrop(s: State, id: nat): State
    requires id in s.lessees && s.lessees[id].stage.Leased?
    requires var l := s.lessees[id];
             l.stage.slot < |s.readDone| == |s.readers| && l.consumer < |s.readDone[l.stage.slot]|
  {
    var l := s.lessees[id];
    var p := l.stage.slot;
    s.(readDone := RecordRead(s.readDone, p, l.consumer, |s.log|), readers := Lower(s.readers, p),
       lessees := s.lessees[id := l.(stage := Released(p, l.stage.seqNo, l.stage.snap))])
  }

  function AfterReady(s: State, id: nat): State
    requires id in s.lessees && s.lessees[id].stage.Leased? && s.lessees[id].stage.slot < |s.dataReady|
  {
    var l := s.lessees[id];
    s.(log := s.log + [Entry(ConsumerStream(l.consumer), Wait(ProducerStream, s.dataReady[l.stage.slot]))],
       lessees := s.lessees[id := l.(stage := l.stage.(waited := true))])
  }

  lemma ReadyRuns(c: Config, from: State, s: State, id: nat)
    requires Leads(c, from, s) && Reachable(c, s) && Shape(c, s)
    requires id in s.lessees && s.lessees[id].stage.Leased? && s.lessees[id].stage.slot < |s.dataReady|
    ensures var t := AfterReady(s, id); Leads(c, from, t) && Reachable(c, t) && Shape(c, t)
  {
    LeadsOn(c, from, s, DeviceRing.WaitReady(id));
    LeadsOn(c, Init(c), s, DeviceRing.WaitReady(id));
    ShapeStep(c, s, DeviceRing.WaitReady(id));
  }

  /** What view_latest_inplace finds. */
  function PeekOf(s: State): Option<Taken> {
    if s.latest.None? then None
    else if s.latest.value < |s.seqNo| && s.seqNo[s.latest.value] % 2 == 0 then
      Some(Taken(s.latest.value, s.seqNo[s.latest.value]))
    else None
  }

  lemma DropRuns(c: Config, s: State, id: nat)
    requires Shape(c, s) && id in s.lessees && s.lessees[id].stage.Leased?
    ensures LesseeInRange(c, s.lessees[id]) && Leads(c, s, AfterDrop(s, id))
  {
    assert LesseeInRange(c, s.lessees[id]);
    LeadsNowhere(c, s);
    Onwards(c, s, s, Drop(id));
    var t := Next(c, s, Drop(id));
    Onwards(c, s, t, LesseeStep(id));
    assert Next(c, t, LesseeStep(id)).lessees == AfterDrop(s, id).lessees;
  }

  // ------------------------------------------------------------------ the scan

  /** The event queries' answers, one per slot and consumer. */
  predicate Answers(c: Config, complete: seq<seq<bool>>) {
    |complete| == c.slots && forall i | 0 <= i < |complete| :: |complete[i]| == c.consumers
  }

  // What a candidate can be, from the cursor on: neither the newest nor leased, and
  // then perhaps no longer read by the GPU; or leased.

  datatype Quality = Reusable | Unleased | InUse

  ghost predicate Is(c: Config, s: State, complete: seq<seq<bool>>, q: Quality, i: nat)
    requires Shape(c, s) && Answers(c, complete)
  {
    var slot := (s.nextWrite + i) % c.slots;
    && s.latest != Some(slot)
    && (q.InUse? <==> s.readers[slot] > 0)
    && (q.Reusable? ==> forall k | 0 <= k < c.consumers :: complete[slot][k])
  }

  /** Of the first `n` candidates, the first of that quality; None if there is none. */
  ghost predicate First(c: Config, s: State, complete: seq<seq<bool>>, q: Quality, n: nat, found: Option<nat>)
    requires Shape(c, s) && Answers(c, complete)
  {
    if found.None? then forall k: nat | k < n :: !Is(c, s, complete, q, k)
    else exists i: nat :: i < n && found == Some((s.nextWrite + i) % c.slots) && Is(c, s, complete, q, i)
                          && forall k: nat | k < i :: !Is(c, s, complete, q, k)
  }

  /** The first reusable slot is claimed if there is one. If not, a call that may not
      block gets none; one that may claims the first that nobody leases, to wait for the
      GPU, and parks on the first leased one only if there is none of those either. */
  ghost predicate RightClaim(c: Config, s: State, blocking: bool, complete: seq<seq<bool>>, claim: Claim)
    requires Shape(c, s) && Answers(c, complete)
  {
    && (claim.Claim? ==>
          || First(c, s, complete, Reusable, c.slots, Some(claim.slot))
          || (blocking && First(c, s, complete, Reusable, c.slots, None)
              && First(c, s, complete, Unleased, c.slots, Some(claim.slot))))
    && (!claim.Claim? ==>
          First(c, s, complete, Reusable, c.slots, None) && (claim.NoSlot? <==> !blocking))
    && (claim.Parks? || claim.NoWritable? ==>
          && First(c, s, complete, Unleased, c.slots, None)
          && First(c, s, complete, InUse, c.slots, if claim.Parks? then Some(claim.slot) else None))
  }

  lemma FirstOnward(c: Config, s: State, complete: seq<seq<bool>>, q: Quality, i: nat, found: Option<nat>)
    requires Shape(c, s) && Answers(c, complete) && First(c, s, complete, q, i, found)
    ensures Is(c, s, complete, q, i) ==> First(c, s, complete, q, i + 1, Or(found, (s.nextWrite + i) % c.slots))
    ensures !Is(c, s, complete, q, i) ==> First(c, s, complete, q, i + 1, found)
    ensures found.Some? ==> forall n | n >= i :: First(c, s, complete, q, n, found)
  {
    hide Is;
  }

  lemma {:induction false} ScanIsRight(c: Config, s: State, complete: seq<seq<bool>>, i: nat,
                                       busy: Option<nat>, reading: Option<nat>)
    requires Shape(c, s) && Answers(c, complete) && i <= c.slots
    requires First(c, s, complete, Reusable, i, None)
    requires First(c, s, complete, Unleased, i, reading) && First(c, s, complete, InUse, i, busy)
    ensures var f := Scanned(c, s, complete, i, busy, reading);
            && First(c, s, complete, Reusable, c.slots, f.free)
            && (f.free.None? ==>
                  && First(c, s, complete, Unleased, c.slots, f.reading)
                  && First(c, s, complete, InUse, c.slots, f.busy))
    decreases c.slots - i
  {
    if i < c.slots {
      FirstOnward(c, s, complete, Reusable, i, None);
      FirstOnward(c, s, complete, Unleased, i, reading);
      FirstOnward(c, s, complete, InUse, i, busy);
      hide First;
      var slot := (s.nextWrite + i) % c.slots;
      if s.latest == Some(slot) {
        ScanIsRight(c, s, complete, i + 1, busy, reading);
      } else if s.readers[slot] != 0 {
        ScanIsRight(c, s, complete, i + 1, Or(busy, slot), reading);
      } else if !Retired(complete, slot) {
        ScanIsRight(c, s, complete, i + 1, busy, Or(reading, slot));
      } else {
        FoundFirst(c, s, complete, Reusable, i);
      }
    }
  }

  lemma FoundFirst(c: Config, s: State, complete: seq<seq<bool>>, q: Quality, i: nat)
    requires Shape(c, s) && Answers(c, complete) && i < c.slots
    requires First(c, s, complete, q, i, None) && Is(c, s, complete, q, i)
    ensures First(c, s, complete, q, c.slots, Some((s.nextWrite + i) % c.slots))
  {
    hide Is;
  }

  lemma ClaimIsRight(c: Config, s: State, blocking: bool, complete: seq<seq<bool>>)
    requires Shape(c, s) && Answers(c, complete)
    ensures RightClaim(c, s, blocking, complete, ClaimOf(c, s, blocking, complete))
  {
    ScanIsRight(c, s, complete, 0, None, None);
    hide First, Scanned;
  }

  predicate Retired(complete: seq<seq<bool>>, slot: nat)
    requires slot < |complete|
  {
    forall k | 0 <= k < |complete[slot]| :: complete[slot][k]
  }

  /** What a scan from candidate `i` on finds: a free slot, else the first leased one
      and the first one still being read. */
  datatype Found = Found(free: Option<nat>, busy: Option<nat>, reading: Option<nat>)

  function Scanned(c: Config, s: State, complete: seq<seq<bool>>, i: nat, busy: Option<nat>, reading: Option<nat>)
    : Found
    requires Shape(c, s) && Answers(c, complete) && i <= c.slots
    decreases c.slots - i
  {
    if i == c.slots then Found(None, busy, reading)
    else
      var slot := (s.nextWrite + i) % c.slots;
      if s.latest == Some(slot) then Scanned(c, s, complete, i + 1, busy, reading)
      else if s.readers[slot] != 0 then Scanned(c, s, complete, i + 1, Or(busy, slot), reading)
      else if Retired(complete, slot) then Found(Some(slot), busy, reading)
      else Scanned(c, s, complete, i + 1, busy, Or(reading, slot))
  }

  function ClaimOf(c: Config, s: State, blocking: bool, complete: seq<seq<bool>>): Claim
    requires Shape(c, s) && Answers(c, complete)
  {
    var f := Scanned(c, s, complete, 0, None, None);
    if f.free.Some? then Claim(f.free.value)
    else if !blocking then NoSlot
    else if f.reading.Some? then Claim(f.reading.value)
    else if f.busy.None? then NoWritable
    else Parks(f.busy.value)
  }

  function AfterClaim(c: Config, s: State, blocking: bool, claim: Claim): State
    requires c.Legal()
  {
    match claim
    case Claim(slot) => s.(nextWrite := (slot + 1) % c.slots, producer := Claimed(blocking, slot))
    case NoSlot => s
    case Parks(slot) => s.(producer := Parked(slot))
    case NoWritable => s.(producer := Failed)
  }

  /** The state of a scan that is about to look at candidate `i`. */
  function At(s: State, blocking: bool, i: nat, busy: Option<nat>, reading: Option<nat>): State {
    s.(producer := Scanning(Scan(blocking, s.latest, i, busy, reading)))
  }

  /** One candidate in the transition system. */
  lemma ScanLook(c: Config, s: State, blocking: bool, i: nat, busy: Option<nat>, reading: Option<nat>)
    requires Shape(c, s) && Shape(c, At(s, blocking, i, busy, reading)) && i < c.slots
    ensures var slot := (s.nextWrite + i) % c.slots;
            slot < |s.readers| &&
            ProducerNext(c, At(s, blocking, i, busy, reading), false) ==
              (if s.latest == Some(slot) then At(s, blocking, i + 1, busy, reading)
               else if s.readers[slot] != 0 then At(s, blocking, i + 1, Or(busy, slot), reading)
               else s.(producer := Querying(Scan(blocking, s.latest, i, busy, reading))))
  {
  }

  lemma ScanQuery(c: Config, s: State, blocking: bool, i: nat, busy: Option<nat>, reading: Option<nat>, retired: bool)
    requires Shape(c, s) && Shape(c, s.(producer := Querying(Scan(blocking, s.latest, i, busy, reading))))
    ensures var slot := (s.nextWrite + i) % c.slots;
            ProducerNext(c, s.(producer := Querying(Scan(blocking, s.latest, i, busy, reading))), retired) ==
              (if retired then AfterClaim(c, s, blocking, Claim(slot))
               else At(s, blocking, i + 1, busy, Or(reading, slot)))
  {
  }

  /** The end of the scan. */
  function OverClaim(blocking: bool, busy: Option<nat>, reading: Option<nat>): Claim {
    if !blocking then NoSlot
    else if reading.Some? then Claim(reading.value)
    else if busy.None? then NoWritable
    else Parks(busy.value)
  }

  lemma ScanEnd(c: Config, s: State, blocking: bool, busy: Option<nat>, reading: Option<nat>)
    requires Shape(c, s) && s.producer.Idle? && Shape(c, At(s, blocking, c.slots, busy, reading))
    ensures ProducerNext(c, At(s, blocking, c.slots, busy, reading), false)
            == AfterClaim(c, s, blocking, OverClaim(blocking, busy, reading))
  {
  }

  /** The transition system's scan goes the same way. */
  lemma ClaimRuns(c: Config, s: State, blocking: bool, complete: seq<seq<bool>>)
    requires Shape(c, s) && s.producer.Idle? && c.policy.ScanForFree? && Answers(c, complete)
    ensures Leads(c, s, AfterClaim(c, s, blocking, ClaimOf(c, s, blocking, complete)))
  {
    LeadsNowhere(c, s);
    Onwards(c, s, s, AcquireWrite(blocking));
    ScanRuns(c, s, blocking, complete, 0, None, None);
  }

  lemma {:induction false} ScanRuns(c: Config, s: State, blocking: bool, complete: seq<seq<bool>>,
                                    i: nat, busy: Option<nat>, reading: Option<nat>)
    requires Shape(c, s) && s.producer.Idle? && Answers(c, complete) && i <= c.slots
    requires Scanned(c, s, complete, i, busy, reading) == Scanned(c, s, complete, 0, None, None)
    requires Leads(c, s, At(s, blocking, i, busy, reading)) && Shape(c, At(s, blocking, i, busy, reading))
    ensures Leads(c, s, AfterClaim(c, s, blocking, ClaimOf(c, s, blocking, complete)))
    decreases c.slots - i
  {
    hide Leads, Shape, ProducerNext, Retired;
    Works(c, s, At(s, blocking, i, busy, reading), false);
    if i == c.slots {
      ScanEnd(c, s, blocking, busy, reading);
    } else {
      ScanLook(c, s, blocking, i, busy, reading);
      var slot := (s.nextWrite + i) % c.slots;
      if s.latest == Some(slot) {
        ScanRuns(c, s, blocking, complete, i + 1, busy, reading);
      } else if s.readers[slot] != 0 {
        ScanRuns(c, s, blocking, complete, i + 1, Or(busy, slot), reading);
      } else {
        var retired := Retired(complete, slot);
        ScanQuery(c, s, blocking, i, busy, reading, retired);
        Works(c, s, s.(producer := Querying(Scan(blocking, s.latest, i, busy, reading))), retired);
        if !retired { ScanRuns(c, s, blocking, complete, i + 1, busy, Or(reading, slot)); }
      }
    }
  }

  lemma LeadsShape(c: Config, s: State, t: State)
    requires Leads(c, s, t)
    ensures Shape(c, t)
  {
  }
}
