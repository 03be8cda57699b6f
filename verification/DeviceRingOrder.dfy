/** WritePolicy::ScanForFree: the newest slot is never touched, a scan never comes
    up empty-handed, and in which order a pair consumer takes the frames. */
module DeviceRingOrder {
  import opened Options
  import opened GpuLog
  import opened DeviceRing
  import opened DeviceRingSafety

  // -------------------------------------------------------- the newest slot

  /** How many published frames latest_ does not stand for yet. */
  function Pending(s: State): nat {
    if s.producer.Bumped? then 1 else 0
  }

  ghost predicate Distinct(numbers: seq<nat>) {
    forall p, q :: 0 <= p < |numbers| && 0 <= q < |numbers| && p != q && numbers[p] > 0 ==> numbers[p] != numbers[q]
  }

  /** Of the candidates looked at so far, all but the newest slot left a trace. */
  ghost predicate ScanTraced(c: Config, s: State, scan: Scan)
    requires c.Legal()
  {
    && scan.newest == s.latest
    && (scan.reading.Some? ==> scan.reading != s.latest)
    && (forall i :: 0 <= i < scan.at && Some(CandidateSlot(c, s.nextWrite, i)) != s.latest ==>
          scan.busy.Some? || scan.reading.Some?)
  }

  /** Publication numbers tell the slots apart, and latest_ names the last frame
      published, in a slot the producer keeps away from. */
  ghost predicate NumbersOk(c: Config, s: State)
    requires Shape(c, s)
  {
    && Distinct(s.numbers)
    && (forall p :: 0 <= p < c.slots ==> s.numbers[p] <= |s.ledger|)
    && (s.producer.Bumped? ==> s.numbers[s.producer.slot] == |s.ledger| && s.latest != Some(s.producer.slot))
    && (if s.latest.None? then |s.ledger| == Pending(s)
        else
          var p := s.latest.value;
          && s.numbers[p] == |s.ledger| - Pending(s) && s.numbers[p] > 0
          && !s.producer.Targets(p))
  }

  ghost predicate ScanOk(c: Config, s: State)
    requires c.Legal()
  {
    match s.producer
    case Failed => false
    case Scanning(scan) => ScanTraced(c, s, scan)
    case Querying(scan) => ScanTraced(c, s, scan) && Some(CandidateSlot(c, s.nextWrite, scan.at)) != s.latest
    case _ => true
  }

  ghost predicate NewestOk(c: Config, s: State)
    requires Shape(c, s)
  {
    NumbersOk(c, s) && ScanOk(c, s)
  }

  /** Two neighbouring candidates of a scan are different slots. */
  lemma NeighboursDiffer(c: Config, s: State)
    requires c.Legal() && s.nextWrite < c.slots
    ensures CandidateSlot(c, s.nextWrite, 0) != CandidateSlot(c, s.nextWrite, 1)
  {
    assert s.nextWrite % c.slots == s.nextWrite;
    if s.nextWrite + 1 < c.slots { assert (s.nextWrite + 1) % c.slots == s.nextWrite + 1; }
  }

  lemma ScanFindsSomething(c: Config, s: State, scan: Scan)
    requires c.Legal() && s.nextWrite < c.slots && ScanTraced(c, s, scan) && scan.at >= c.slots
    ensures scan.busy.Some? || scan.reading.Some?
  {
    NeighboursDiffer(c, s);
    assert Some(CandidateSlot(c, s.nextWrite, 0)) != s.latest || Some(CandidateSlot(c, s.nextWrite, 1)) != s.latest;
  }

  /** From `s` to `t` the newest frame only moves on, and while it stays, so does
      its slot's sequence number. */
  ghost predicate Later(c: Config, s: State, t: State)
    requires Shape(c, s) && Shape(c, t)
  {
    && NewestNo(s) <= NewestNo(t)
    && (NewestNo(s) == NewestNo(t) ==>
          t.latest == s.latest && (s.latest.Some? ==> t.seqNo[s.latest.value] == s.seqNo[s.latest.value]))
    && (forall p :: 0 <= p < c.slots ==>
          t.numbers[p] == s.numbers[p] || t.numbers[p] == 0 || t.numbers[p] > NewestNo(s))
  }

  lemma ProducerScan(c: Config, s: State, retired: bool)
    requires Shape(c, s) && ScanOk(c, s)
    ensures ScanOk(c, ProducerNext(c, s, retired))
  {
    if s.producer.Scanning? && s.producer.scan.at >= c.slots {
      ScanFindsSomething(c, s, s.producer.scan);
    }
  }

  lemma ClaimAvoidsNewest(c: Config, s: State, retired: bool)
    requires Shape(c, s) && NumbersOk(c, s) && ScanOk(c, s) && s.latest.Some?
    requires !s.producer.Bumped?
    ensures !ProducerNext(c, s, retired).producer.Targets(s.latest.value)
  {
  }

  lemma ProducerNumbers(c: Config, s: State, retired: bool)
    requires Shape(c, s) && NumbersOk(c, s) && ScanOk(c, s)
    requires Shape(c, ProducerNext(c, s, retired))
    ensures NumbersOk(c, ProducerNext(c, s, retired))
  {
    if s.latest.Some? && !s.producer.Bumped? { ClaimAvoidsNewest(c, s, retired); }
    if s.producer.Stamped? { NumbersOnPublish(c, s); }
    else if s.producer.Bumped? { NumbersOnLatest(c, s); }
    else { NumbersElsewhere(c, s, retired); }
  }

  lemma NumbersOnPublish(c: Config, s: State)
    requires Shape(c, s) && NumbersOk(c, s) && s.producer.Stamped?
    requires Shape(c, ProducerNext(c, s, false))
    ensures NumbersOk(c, ProducerNext(c, s, false))
  {
  }

  lemma NumbersOnLatest(c: Config, s: State)
    requires Shape(c, s) && NumbersOk(c, s) && s.producer.Bumped?
    requires Shape(c, ProducerNext(c, s, false))
    ensures NumbersOk(c, ProducerNext(c, s, false))
  {
  }

  lemma NumbersElsewhere(c: Config, s: State, retired: bool)
    requires Shape(c, s) && NumbersOk(c, s) && !s.producer.Stamped? && !s.producer.Bumped?
    requires var t := ProducerNext(c, s, retired);
             Shape(c, t) && (s.latest.Some? ==> !t.producer.Targets(s.latest.value))
    ensures NumbersOk(c, ProducerNext(c, s, retired))
  {
    var t := ProducerNext(c, s, retired);
    assert t.numbers == s.numbers && t.ledger == s.ledger && t.latest == s.latest && !t.producer.Bumped?;
  }

  lemma ProducerLater(c: Config, s: State, retired: bool)
    requires Shape(c, s) && NumbersOk(c, s)
    requires Shape(c, ProducerNext(c, s, retired))
    ensures Later(c, s, ProducerNext(c, s, retired))
  {
  }

  /** A step that leaves the producer's scan, the numbers and latest_ alone. */
  lemma AsideNewest(c: Config, s: State, t: State)
    requires Shape(c, s) && NewestOk(c, s) && Shape(c, t)
    requires t.numbers == s.numbers && t.ledger == s.ledger && t.latest == s.latest
    requires t.seqNo == s.seqNo && t.nextWrite == s.nextWrite && t.producer == s.producer
    ensures NewestOk(c, t) && Later(c, s, t)
  {
  }

  lemma WriterNewest(c: Config, s: State, a: Action)
    requires Shape(c, s) && NewestOk(c, s) && c.policy.ScanForFree?
    requires a.AcquireWrite? || a.Publish? || a.Abandon?
    requires Shape(c, Next(c, s, a))
    ensures NewestOk(c, Next(c, s, a)) && Later(c, s, Next(c, s, a))
  {
  }

  lemma StepNewest(c: Config, s: State, a: Action)
    requires Shape(c, s) && NewestOk(c, s) && c.policy.ScanForFree?
    ensures Shape(c, Next(c, s, a)) && NewestOk(c, Next(c, s, a)) && Later(c, s, Next(c, s, a))
  {
    ShapeStep(c, s, a);
    if a.ProducerStep? {
      ProducerScan(c, s, a.retired);
      ProducerNumbers(c, s, a.retired);
      ProducerLater(c, s, a.retired);
    } else if a.AcquireWrite? || a.Publish? || a.Abandon? {
      WriterNewest(c, s, a);
    } else {
      AsideNewest(c, s, Next(c, s, a));
    }
  }

  // ---------------------------------------------------- the order of the takes

  /** Nothing published later than `highest` is newest yet only if the slot last
      taken still is. */
  ghost predicate LastIsNewest(s: State, highest: nat, slot: nat, q: nat) {
    && highest <= NewestNo(s)
    && (highest == NewestNo(s) && highest > 0 ==>
          s.latest == Some(slot) && slot < |s.seqNo| && s.seqNo[slot] == q)
  }

  ghost predicate WantOk(s: State, want: Want)
    requires want.NextReference?
  {
    if want.last.None? then want.highest == 0
    else LastIsNewest(s, want.highest, want.last.value.slot, want.last.value.seqNo)
  }

  /** The peek found something newer than everything taken so far. */
  ghost predicate Passed(s: State, want: Want)
    requires want.NextReference?
  {
    want.highest < NewestNo(s) || want.highest == 0
  }

  /** Slot `p` was the newest when it was picked: what it holds by now is newer than
      everything taken so far, or not a published frame. */
  ghost predicate Fresh(s: State, want: Want, p: nat)
    requires want.NextReference?
  {
    p < |s.numbers| && (s.numbers[p] == 0 || s.numbers[p] > want.highest)
  }

  ghost predicate TakeOk(s: State, l: Lessee) {
    l.want.NextReference? && l.want.safe ==>
      match l.stage
      case Peeking => WantOk(s, l.want)
      case Peeked(p) =>
        WantOk(s, l.want)
        && (l.want.highest == NewestNo(s) && l.want.highest > 0 ==> Some(p) == s.latest)
      case SawLatest(p) => Passed(s, l.want) && Fresh(s, l.want, p)
      case Chosen(p, _, _) => Passed(s, l.want) && Fresh(s, l.want, p)
      case Counted(p, _, _) => Passed(s, l.want) && Fresh(s, l.want, p)
      case Validated(p, q, _, snap) => TakenOk(s, l.want, p, q, snap)
      case Leased(p, q, _, snap, _) => TakenOk(s, l.want, p, q, snap)
      case Dropping(p, q, snap) => TakenOk(s, l.want, p, q, snap)
      case Released(p, q, snap) => TakenOk(s, l.want, p, q, snap)
      case Missed => true
      case LoadingSeq(_, _) => false
      case LoadingStamp(_, _, _) => false
      case _ => Passed(s, l.want)
  }

  ghost predicate TakenOk(s: State, want: Want, p: nat, q: nat, snap: Snapshot)
    requires want.NextReference?
  {
    && (snap.no == 0 || snap.no > want.highest)
    && (snap.no <= snap.newestNo ==> LastIsNewest(s, Max(want.highest, snap.no), p, q))
  }

  ghost predicate Takes(s: State) {
    forall id :: id in s.lessees ==> TakeOk(s, s.lessees[id])
  }

  lemma TakeKept(c: Config, s: State, t: State, l: Lessee)
    requires Shape(c, s) && Shape(c, t) && Later(c, s, t) && NewestOk(c, s)
    requires TakeOk(s, l)
    ensures TakeOk(t, l)
  {
  }

  lemma NextTakeOk(c: Config, s: State, l: Lessee)
    requires Shape(c, s) && NewestOk(c, s) && LesseeInRange(c, l) && TakeOk(s, l)
    ensures TakeOk(s, Advance(c, s, l))
  {
  }

  ghost predicate OrderInv(c: Config, s: State) {
    Shape(c, s) && NewestOk(c, s) && Takes(s)
  }

  lemma InitOrder(c: Config)
    requires c.Legal()
    ensures OrderInv(c, Init(c))
  {
    InitShape(c);
  }

  /** A step changes an attempt by its own advance or in ways that take nothing. */
  lemma AttemptAfter(c: Config, s: State, a: Action, id: nat)
    requires Shape(c, s) && id in s.lessees && id in Next(c, s, a).lessees
    ensures var l, m := s.lessees[id], Next(c, s, a).lessees[id];
            && LesseeInRange(c, l)
            && (|| m == l
                || m == Advance(c, s, l)
                || (l.stage.Leased? && m == l.(stage := l.stage.(waited := true)))
                || (l.stage.Leased? && m == l.(stage := Dropping(l.stage.slot, l.stage.seqNo, l.stage.snap))))
  {
    assert LesseeInRange(c, s.lessees[id]);
  }

  lemma AttemptTakeOk(c: Config, s: State, a: Action, id: nat)
    requires OrderInv(c, s) && id in s.lessees && id in Next(c, s, a).lessees
    ensures TakeOk(s, Next(c, s, a).lessees[id])
  {
    AttemptAfter(c, s, a, id);
    hide Next, Advance;
    var l := s.lessees[id];
    assert TakeOk(s, l);
    NextTakeOk(c, s, l);
  }

  lemma StepOrder(c: Config, s: State, a: Action)
    requires OrderInv(c, s) && c.policy.ScanForFree?
    ensures OrderInv(c, Next(c, s, a))
  {
    StepNewest(c, s, a);
    hide Next, TakeOk, Later, NewestOk;
    var t := Next(c, s, a);
    forall id | id in t.lessees
      ensures TakeOk(t, t.lessees[id])
    {
      assert LesseeInRange(c, t.lessees[id]);
      if id in s.lessees {
        AttemptTakeOk(c, s, a, id);
      } else {
        OnlyStarts(c, s, a, id);
        NewTakeOk(c, s, a);
      }
      TakeKept(c, s, t, t.lessees[id]);
    }
  }

  lemma OnlyStarts(c: Config, s: State, a: Action, id: nat)
    requires Shape(c, s) && id !in s.lessees && id in Next(c, s, a).lessees
    ensures a.StartLease? && a.id == id
  {
  }

  /** A pair consumer that resumes starts from a sound position. */
  lemma NewTakeOk(c: Config, s: State, a: Action)
    requires OrderInv(c, s) && a.StartLease? && a.id !in s.lessees && a.id in Next(c, s, a).lessees
    ensures TakeOk(s, Next(c, s, a).lessees[a.id])
  {
    if a.want.NextReference? && a.want != NextReference(None, 0, true) {
      var j :| j in s.lessees && s.lessees[j].want.NextReference?
               && s.lessees[j].stage.Took() && a.want == ContinueFrom(s.lessees[j]);
      assert TakeOk(s, s.lessees[j]);
    }
  }

  lemma {:induction false} StepsOrder(c: Config, s: State, acts: seq<Action>)
    requires OrderInv(c, s) && c.policy.ScanForFree?
    ensures OrderInv(c, Steps(c, s, acts))
  {
    if acts != [] {
      StepsOrder(c, s, acts[..|acts| - 1]);
      StepOrder(c, Steps(c, s, acts[..|acts| - 1]), acts[|acts| - 1]);
    }
  }

  lemma ReachableOrder(c: Config, s: State)
    requires Reachable(c, s) && c.policy.ScanForFree?
    ensures OrderInv(c, s)
  {
    var acts :| s == Steps(c, Init(c), acts);
    InitOrder(c);
    StepsOrder(c, Init(c), acts);
  }

  // ------------------------------------------------------------ what it means

  /** The scan always finds something to claim or to wait for: the "no writable
      slot" exception is never thrown, however many readers there are. */
  lemma NeverOutOfSlots(c: Config, s: State)
    requires Reachable(c, s) && c.policy.ScanForFree?
    ensures !s.producer.Failed?
  {
    ReachableOrder(c, s);
  }

  /** latest_ always names a slot at rest that holds the newest published frame,
      except that it lags by one while a publish has yet to store it. No write
      lease and no abandon ever reaches that slot. */
  lemma LatestIsPublished(c: Config, s: State)
    requires Reachable(c, s) && c.policy.ScanForFree? && s.latest.Some?
    ensures var p := s.latest.value;
            && p < |s.seqNo| == |s.stamps| == |s.tokens|
            && s.seqNo[p] % 2 == 0 && !s.producer.Targets(p)
            && |s.ledger| > Pending(s)
            && s.ledger[|s.ledger| - 1 - Pending(s)] == Publication(s.stamps[p], s.tokens[p])
  {
    ReachableOrder(c, s);
    ReachableInv(c, s);
    assert SlotRecord(s, s.latest.value);
    assert s.seqNo[s.latest.value] % 2 == 1 <==> s.producer.Fences(s.latest.value);
  }

  /** A pair consumer takes published frames in publish order, each at most once:
      what it takes next is newer than everything it took before (`highest`), or
      is an abandoned slot, which the stamp says. This holds as long as none of
      its earlier frames was taken before latest_ had reached it (`safe`). */
  lemma TakenInOrder(c: Config, s: State, id: nat)
    requires Reachable(c, s) && c.policy.ScanForFree? && id in s.lessees
    requires s.lessees[id].want.NextReference? && s.lessees[id].want.safe && s.lessees[id].stage.Took()
    ensures var snap := s.lessees[id].stage.snap;
            snap.no > s.lessees[id].want.highest || snap.no == 0
    ensures s.lessees[id].stage.Leased? && s.lessees[id].stage.snap.no == 0 ==>
              s.lessees[id].stage.stamp == NO_TIMESTAMP
  {
    ReachableOrder(c, s);
    assert TakeOk(s, s.lessees[id]);
    if s.lessees[id].stage.Leased? { LeasedFrameIsStable(c, s, id); }
  }
}
