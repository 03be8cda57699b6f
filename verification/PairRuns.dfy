/** Runs of a pair consumer: what its pairs and its counters say. */
module PairRuns {
  import opened Options
  import opened DeviceRing
  import opened DeviceRingSafety
  import opened DeviceRingRuns
  import opened DeviceRingBuffer
  import opened RingPairConsumer

  /** A consumer after some steps. */
  function Run(steps: seq<Answers>): Consumer {
    if steps == [] then Beginning() else Stepped(Run(steps[..|steps| - 1]), steps[|steps| - 1])
  }

  /** How many of the steps took a frame. */
  function Takes(steps: seq<Answers>): nat {
    if steps == [] then 0
    else
      var before, a := steps[..|steps| - 1], steps[|steps| - 1];
      Takes(before) + if TakesFrame(Run(before), a) then 1 else 0
  }

  /** How many pairs took a retry to come together. */
  function LatePairs(steps: seq<Answers>): nat {
    if steps == [] then 0
    else
      var before, a := steps[..|steps| - 1], steps[|steps| - 1];
      LatePairs(before) + if TakesFrame(Run(before), a) && a.partner.Some? && a.retries > 0 then 1 else 0
  }

  /** How many new frames were seen and then not leased. */
  function Misses(steps: seq<Answers>): nat {
    if steps == [] then 0
    else
      var before, a := steps[..|steps| - 1], steps[|steps| - 1];
      Misses(before) + if a.peek.Some? && a.peek != Run(before).last && a.reference.None? then 1 else 0
  }

  ghost predicate IsWorst(pairs: seq<Pair>, worst: nat) {
    && (forall p | p in pairs :: Abs(p.skew) <= worst)
    && (worst == 0 || exists p :: p in pairs && Abs(p.skew) == worst)
  }

  /** Pairs are numbered without a gap, the two frames of each are within the
      tolerance of each other, and the reported worst skew is theirs. */
  ghost predicate PairsOk(c: Consumer, tolerance: nat) {
    && |c.pairs| == c.paired == c.nextPairId
    && (forall k: nat | k < |c.pairs| :: c.pairs[k].pairId == k && Abs(c.pairs[k].skew) <= tolerance
          && c.pairs[k].skew == c.pairs[k].other.stamp - c.pairs[k].reference.stamp)
    && IsWorst(c.pairs, c.worst) && c.worst <= tolerance
  }

  /** Over any run of steps on the two rings the pairs are sound, and every reference
      frame taken was paired or counted as unpaired. */
  lemma {:induction false} PairsWithinTolerance(reference: Config, other: Config, tolerance: nat, retries: nat,
                                                steps: seq<Answers>)
    requires forall a | a in steps :: Sourced(reference, other, tolerance, retries, a)
    ensures PairsOk(Run(steps), tolerance) && Takes(steps) == Run(steps).paired + Run(steps).unpaired
    ensures Run(steps).late == LatePairs(steps) && Run(steps).missed == Misses(steps)
  {
    if steps != [] {
      var before, a := steps[..|steps| - 1], steps[|steps| - 1];
      PairsWithinTolerance(reference, other, tolerance, retries, before);
      assert a in steps;
      if a.reference.Some? && a.partner.Some? {
        PartnerIsNear(other, a.reference.value.stamp, tolerance, a.partner.value);
      }
      hide Sourced;
      StepKeepsPairs(tolerance, Run(before), a);
      hide PairsOk;
    }
  }

  ghost predicate Close(tolerance: nat, a: Answers) {
    a.reference.Some? && a.partner.Some? ==> Distance(a.reference.value.stamp, a.partner.value.stamp) <= tolerance
  }

  lemma StepKeepsPairs(tolerance: nat, c: Consumer, a: Answers)
    requires PairsOk(c, tolerance) && Close(tolerance, a)
    ensures PairsOk(Stepped(c, a), tolerance)
  {
    StepKeepsWorst(tolerance, c, a);
    hide IsWorst, Close;
  }

  lemma StepKeepsWorst(tolerance: nat, c: Consumer, a: Answers)
    requires IsWorst(c.pairs, c.worst) && c.worst <= tolerance && Close(tolerance, a)
    ensures var d := Stepped(c, a);
            && IsWorst(d.pairs, d.worst) && d.worst <= tolerance
            && (d.pairs != c.pairs ==> Abs(d.pairs[|d.pairs| - 1].skew) <= tolerance)
  {
    var d := Stepped(c, a);
    if d.pairs != c.pairs {
      var p := d.pairs[|d.pairs| - 1];
      assert d.pairs == c.pairs + [p] && p in d.pairs;
      assert forall q | q in c.pairs :: q in d.pairs;
    }
  }

  // ------------------------------------------------------------ skipped frames

  /** How many takes saw the publication count of the take before. */
  function Still(steps: seq<Answers>): nat {
    if steps == [] then 0
    else
      var before, a := steps[..|steps| - 1], steps[|steps| - 1];
      var c := Run(before);
      Still(before) + if TakesFrame(c, a) && c.last.Some? && a.published == c.lastPublished then 1 else 0
  }

  /** The publication count of the first take. */
  function FirstCount(steps: seq<Answers>): nat {
    if steps == [] then 0
    else
      var before, a := steps[..|steps| - 1], steps[|steps| - 1];
      if Takes(before) == 0 && TakesFrame(Run(before), a) then a.published else FirstCount(before)
  }

  /** The count never falls, as every step promises. */
  ghost predicate NeverFalls(steps: seq<Answers>) {
    steps != [] ==>
      var before, a := steps[..|steps| - 1], steps[|steps| - 1];
      NeverFalls(before) && (TakesFrame(Run(before), a) ==> Run(before).lastPublished <= a.published)
  }

  /** Frames taken and frames skipped are all that were published since the first one
      taken, and one more for every take at an unchanged count. So they add up exactly
      if the count has grown between any two takes. */
  lemma {:induction false} SkipsAddUp(steps: seq<Answers>)
    requires NeverFalls(steps)
    ensures var c := Run(steps);
            && (c.last.None? <==> Takes(steps) == 0)
            && if Takes(steps) == 0 then c.skipped == c.lastPublished == Still(steps) == 0
               else
                 && Takes(steps) + c.skipped == c.lastPublished - FirstCount(steps) + 1 + Still(steps)
                 && (Takes(steps) + c.skipped == c.lastPublished - FirstCount(steps) + 1 <==> Still(steps) == 0)
  {
    if steps != [] { SkipsAddUp(steps[..|steps| - 1]); }
  }

  /** A pair consumer's step on a ring that nobody else uses, up to its lease. */
  lemma TakeRun(c: Config, s: State, id: nat, want: Want) returns (t: State, lease: Lease)
    requires Reachable(c, s) && Shape(c, s) && id !in s.lessees && want.NextReference? && Continues(s, want)
    requires s.latest.Some? && s.seqNo[s.latest.value] % 2 == 0
    requires want.last != Some(Taken(s.latest.value, s.seqNo[s.latest.value]))
    ensures Leads(c, s, t) && Reachable(c, t) && Shape(c, t) && LeasedIn(c, t, id, want, lease)
    ensures lease.slot == s.latest.value && lease.seqNo == s.seqNo[lease.slot]
    ensures t == s.(lessees := s.lessees[id := t.lessees[id]], readers := Bump(s.readers, lease.slot))
    ensures t.lessees[id].stage.Leased? && t.lessees[id].stage.slot == lease.slot && t.lessees[id].want == want
  {
    hide Leads, Reachable, Continues;
    var p := s.latest.value;
    var l := Lessee(0, want, 1, Peeking);
    LeadsNowhere(c, s);
    Onwards(c, s, s, StartLease(id, 0, want, 1));
    var s1 := s.(lessees := s.lessees[id := l]);
    assert Next(c, s, StartLease(id, 0, want, 1)) == s1;
    PeekRun(c, s1, id);
    LeadsJoin(c, s, s1, SetStage(s1, id, Attempting));
    var s2 := LoadLatest(c, SetStage(s1, id, Attempting), id);
    LeadsJoin(c, s, SetStage(s1, id, Attempting), s2);
    t, lease := HoldRun(c, s, s2, id);
  }

  /** From the load of latest_ to the lease. */
  lemma HoldRun(c: Config, s: State, s2: State, id: nat) returns (t: State, lease: Lease)
    requires Reachable(c, s) && Shape(c, s) && Leads(c, s, s2) && Shape(c, s2) && id in s2.lessees
    requires s.latest.Some? && s.seqNo[s.latest.value] % 2 == 0
    requires s2 == s.(lessees := s.lessees[id := s2.lessees[id]])
    requires s2.lessees[id].stage == SawLatest(s.latest.value)
    ensures Leads(c, s, t) && Reachable(c, t) && Shape(c, t) && LeasedIn(c, t, id, s2.lessees[id].want, lease)
    ensures lease.slot == s.latest.value && lease.seqNo == s.seqNo[lease.slot]
    ensures t == s.(lessees := s.lessees[id := t.lessees[id]], readers := Bump(s.readers, lease.slot))
    ensures t.lessees[id].stage.Leased? && t.lessees[id].stage.slot == lease.slot
    ensures t.lessees[id].want == s2.lessees[id].want
  {
    hide Leads, Reachable;
    var p, m := s.latest.value, s2.lessees[id];
    ValidateRun(c, s2, id);
    var s3 := Validates(s2, id);
    LeadsJoin(c, s, s2, s3);
    var l := s3.lessees[id];
    assert s3 == s.(lessees := s.lessees[id := l], readers := Bump(s.readers, p));
    assert LesseeInRange(c, l);
    lease := Lease(p, s.seqNo[p], s.stamps[p]);
    MovesTo(c, s, l, Bump(s.readers, p), id, l.(stage := Leased(p, lease.seqNo, lease.stamp, l.stage.snap, false)));
    t := s.(lessees := s.lessees[id := l.(stage := Leased(p, lease.seqNo, lease.stamp, l.stage.snap, false))],
            readers := Bump(s.readers, p));
    ReachesOn(c, s, t);
    assert LeasedIn(c, t, id, m.want, lease);
  }

  /** A take does see an unchanged count: a frame is leased, the next one is published
      before the count is read, and is then taken at that same count. Two frames are
      taken and none skipped, of the one that the count says was published. */
  lemma StillHappens(reference: Config, other: Config, tolerance: nat, retries: nat)
    returns (s: State, t: State, u: State, steps: seq<Answers>)
    requires reference.Legal() && other.Legal()
    ensures Reachable(reference, s) && Leads(reference, s, t) && Leads(reference, t, u)
    ensures |s.ledger| == 1 && |t.ledger| == |u.ledger| == 2
    ensures |steps| == 2
    ensures forall a | a in steps :: Sourced(reference, other, tolerance, retries, a) && a.published == 2
    ensures steps[0].reference.Some? && steps[1].reference.Some?
    ensures LeasedIn(reference, s, 0, NextReference(None, 0, true), steps[0].reference.value)
    ensures 0 in u.lessees && u.lessees[0].want.NextReference? && u.lessees[0].stage.Took()
    ensures LeasedIn(reference, u, 1, ContinueFrom(u.lessees[0]), steps[1].reference.value)
    ensures NeverFalls(steps) && Takes(steps) == 2 && Run(steps).skipped == 0 && Still(steps) == 1
  {
    var first, second;
    s, t, u, first, second := TwoTakes(reference);
    LeaseIs(reference, s, 0, NextReference(None, 0, true), first);
    LeaseIs(reference, u, 1, ContinueFrom(u.lessees[0]), second);
    steps := [Alone(first, retries), Alone(second, retries)];
    hide Leads, Reachable, CanLease, LeasedIn;
    TwoSteps(first, second, retries);
  }

  /** What a step gets if the other ring is empty. */
  function Alone(lease: Lease, retries: nat): Answers {
    Answers(Some(Taken(lease.slot, lease.seqNo)), Some(lease), 2, retries, None)
  }

  lemma TwoSteps(first: Lease, second: Lease, retries: nat)
    requires first.slot != second.slot
    ensures var steps := [Alone(first, retries), Alone(second, retries)];
            NeverFalls(steps) && Takes(steps) == 2 && Run(steps).skipped == 0 && Still(steps) == 1
  {
    var steps := [Alone(first, retries), Alone(second, retries)];
    var one := [Alone(first, retries)];
    assert one[..0] == [] && steps[..1] == one;
    assert Takes(one) == 1 && Still(one) == 0 && NeverFalls(one);
    assert Run(one).last == Some(Taken(first.slot, first.seqNo)) && Run(one).lastPublished == 2;
  }

  lemma TwoTakes(c: Config) returns (s: State, t: State, u: State, first: Lease, second: Lease)
    requires c.Legal()
    ensures Reachable(c, s) && Leads(c, s, t) && Leads(c, t, u)
    ensures |s.ledger| == 1 && |t.ledger| == |u.ledger| == 2 && first.slot != second.slot
    ensures LeasedIn(c, s, 0, NextReference(None, 0, true), first)
    ensures 0 in u.lessees && u.lessees[0].want.NextReference? && u.lessees[0].stage.Took()
    ensures LeasedIn(c, u, 1, ContinueFrom(u.lessees[0]), second)
  {
    hide Leads, Reachable, LeasedIn;
    s, first := FirstTake(c);
    t, u, second := NextTake(c, s, first);
  }

  lemma FirstTake(c: Config) returns (s: State, first: Lease)
    requires c.Legal()
    ensures Reachable(c, s) && Shape(c, s) && s.producer.Idle? && s.nextWrite == 1 && s.readers[1] == 0
    ensures s.latest == Some(0) && 0 in s.lessees && 1 !in s.lessees && |s.ledger| == 1 && first.slot == 0
    ensures s.lessees[0].want.NextReference? && s.lessees[0].stage.Leased? && s.lessees[0].stage.slot == 0
    ensures LeasedIn(c, s, 0, NextReference(None, 0, true), first)
  {
    var s1 := FirstFrame(c);
    hide Leads, Reachable, LeasedIn, Shape;
    s, first := TakeRun(c, s1, 0, NextReference(None, 0, true));
  }

  lemma FirstFrame(c: Config) returns (s: State)
    requires c.Legal()
    ensures Reachable(c, s) && Shape(c, s) && s.producer.Idle? && s.nextWrite == 1 && s.readers[0] == s.readers[1] == 0
    ensures s.latest == Some(0) && s.lessees == map[] && |s.ledger| == 1 && s.seqNo[0] % 2 == 0 && |s.readers| >= 2
  {
    InitShape(c);
    LeadsNowhere(c, Init(c));
    NextInLine(0, c.slots);
    s := FrameRun(c, Init(c), 5);
    AtRest(c, s, 0);
  }

  /** The next frame is published, the one held goes back and the next one is taken. */
  lemma NextTake(c: Config, s: State, first: Lease) returns (t: State, u: State, second: Lease)
    requires Reachable(c, s) && Shape(c, s) && s.producer.Idle? && s.nextWrite == 1 && s.readers[1] == 0
    requires s.latest == Some(0) && 0 in s.lessees && 1 !in s.lessees && |s.ledger| == 1 && first.slot == 0
    requires s.lessees[0].want.NextReference? && s.lessees[0].stage.Leased? && s.lessees[0].stage.slot == 0
    ensures Leads(c, s, t) && Leads(c, t, u) && |t.ledger| == |u.ledger| == 2 && second.slot == 1
    ensures 0 in u.lessees && u.lessees[0].want.NextReference? && u.lessees[0].stage.Took()
    ensures LeasedIn(c, u, 1, ContinueFrom(u.lessees[0]), second)
  {
    hide Leads, Reachable, LeasedIn;
    t := FrameRun(c, s, 6);
    AtRest(c, t, 1);
    var dropped := DropRun(c, t, 0);
    GoesOn(dropped, 0);
    u, second := TakeRun(c, dropped, 1, ContinueFrom(dropped.lessees[0]));
    assert u.lessees[0] == dropped.lessees[0];
    LeadsJoin(c, t, dropped, u);
  }

  lemma DropRun(c: Config, s: State, id: nat) returns (t: State)
    requires Reachable(c, s) && Shape(c, s) && id in s.lessees && s.lessees[id].stage.Leased?
    ensures Leads(c, s, t) && Reachable(c, t) && Shape(c, t) && id in t.lessees && t.lessees[id].stage.Released?
    ensures t.lessees == s.lessees[id := t.lessees[id]] && t.lessees[id].want == s.lessees[id].want
    ensures t.lessees[id].stage.slot == s.lessees[id].stage.slot
    ensures t.lessees[id].stage.seqNo == s.lessees[id].stage.seqNo
    ensures t.latest == s.latest && t.seqNo == s.seqNo && t.ledger == s.ledger
  {
    DropRuns(c, s, id);
    t := AfterDrop(s, id);
    ReachesOn(c, s, t);
    ReachableShape(c, t);
  }
}
