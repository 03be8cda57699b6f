/** The device ring's lease protocol as a transition system: one atomic
    operation of the producer or of one lease attempt per step, sequentially
    consistent, any number of lease attempts at once. */
module DeviceRing {
  import opened Options
  import opened GpuLog

  const NO_TIMESTAMP: nat := 0xFFFF_FFFF_FFFF_FFFF

  datatype WritePolicy = RoundRobin | ScanForFree

  datatype ReuseWait = HostSync | DeviceWait

  datatype Config = Config(slots: nat, consumers: nat, policy: WritePolicy, reuse: ReuseWait) {
    /** What the constructor insists on. */
    predicate Legal() {
      slots >= 2 && consumers >= 1
    }
  }

  // ---------------------------------------------------------------- producer

  /** claim_free_slot's locals: the newest slot as first read, how many
      candidates have been looked at, the first leased one and the first one the
      GPU still reads. */
  datatype Scan = Scan(blocking: bool, newest: Option<nat>, at: nat, busy: Option<nat>, reading: Option<nat>)

  /** Where the producer is between two of its atomic operations. */
  datatype Producer =
    | Idle
    | Scanning(scan: Scan)                // about to read a candidate's reader count
    | Querying(scan: Scan)                // no readers; about to query its read_done events
    | Parked(busySlot: nat)
    | Failed                              // threw "no writable slot"
    | Claimed(blocking: bool, slot: nat)  // about to make seq odd
    | Fenced(blocking: bool, slot: nat)   // seq is odd; about to look at the reader count
    | BackingOut(slot: nat)               // lost to a reader; about to make seq even again
    | Ordering(slot: nat, consumer: nat)  // waiting on read_done, one consumer at a time
    | Reusing(slot: nat)                  // about to wait on the slot's own data_ready
    | Writing(slot: nat)                  // a WriteLease is live
    | Recorded(slot: nat, stamp: nat)     // publish: data_ready recorded
    | Stamped(slot: nat)                  // publish: stamp stored
    | Bumped(slot: nat)                   // publish: seq even, latest_ not yet stored
    | AbandonStamped(slot: nat)           // abandon: kNoTimestamp stored
  {
    /** The producer alone may touch slot `s`: it saw no reader after the fence. */
    predicate Excludes(s: nat) {
      match this
      case Ordering(p, _) => p == s
      case Reusing(p) => p == s
      case Writing(p) => p == s
      case Recorded(p, _) => p == s
      case Stamped(p) => p == s
      case AbandonStamped(p) => p == s
      case _ => false
    }

    /** The producer has made the sequence number of slot `s` odd. */
    predicate Fences(s: nat) {
      (Fenced? && slot == s) || (BackingOut? && slot == s) || Excludes(s)
    }

    /** The producer has settled on slot `s` and has not let go of it. */
    predicate Targets(s: nat) {
      (Claimed? && slot == s) || Fences(s)
    }
  }

  // ----------------------------------------------------------------- lessees

  /** What a lease attempt asks for. */
  datatype Want =
    | Latest                                                  // lease_latest
    | ByTimestamp(stamp: nat, tolerance: nat, closest: bool)  // lease_by_timestamp
    // RingPairConsumer::step: peek, skip what was taken last, then lease_latest.
    // History: `highest` is the largest publication number taken so far, `safe`
    // that no frame was taken before latest_ had caught up with it.
    | NextReference(last: Option<Taken>, highest: nat, safe: bool)

  /** last_slot_ and last_seq_ of a pair consumer. */
  datatype Taken = Taken(slot: nat, seqNo: nat)

  datatype Candidate = Candidate(slot: nat, seqNo: nat, stamp: nat)

  /** The frame in the slot at the instant a lease was validated: its stamp, its
      content, its publication number (0: not a published frame), and the
      publication number latest_ stood for just then. */
  datatype Snapshot = Snapshot(stamp: nat, token: nat, no: nat, newestNo: nat)

  datatype Stage =
    | Peeking
    | Peeked(slot: nat)
    | Attempting
    | SawLatest(slot: nat)
    | LoadingSeq(at: nat, best: Option<Candidate>)
    | LoadingStamp(at: nat, seqNo: nat, best: Option<Candidate>)
    | Chosen(slot: nat, seqNo: nat, seen: Option<nat>)     // about to raise the reader count
    | Counted(slot: nat, seqNo: nat, seen: Option<nat>)    // about to re-check seq
    | Undoing(slot: nat)                                   // seq moved; about to lower the count
    | Validated(slot: nat, seqNo: nat, seen: Option<nat>, snap: Snapshot)
    | Leased(slot: nat, seqNo: nat, stamp: nat, snap: Snapshot, waited: bool)
    | Dropping(slot: nat, seqNo: nat, snap: Snapshot)      // read_done recorded
    | Released(slot: nat, seqNo: nat, snap: Snapshot)
    | Missed                                               // an invalid lease came back
  {
    /** This attempt is part of the reader count of slot `s`. */
    predicate CountsFor(s: nat) {
      match this
      case Counted(p, _, _) => p == s
      case Undoing(p) => p == s
      case Validated(p, _, _, _) => p == s
      case Leased(p, _, _, _, _) => p == s
      case Dropping(p, _, _) => p == s
      case _ => false
    }

    /** The attempt took a frame, whether or not it still holds it. */
    predicate Took() {
      Validated? || Leased? || Dropping? || Released?
    }

    /** A validated hold on slot `s`, a live ReadLease or about to be one. */
    predicate Holds(s: nat) {
      (Validated? || Leased? || Dropping?) && slot == s
    }
  }

  datatype Lessee = Lessee(consumer: nat, want: Want, attempts: nat, stage: Stage)

  // ------------------------------------------------------------------- state

  datatype Publication = Publication(stamp: nat, token: nat)

  datatype State = State(
    // the ring's atomics
    seqNo: seq<nat>, readers: seq<nat>, stamps: seq<nat>, latest: Option<nat>,
    // producer-local
    nextWrite: nat, producer: Producer,
    // events: the log length each one captured, 0 if it was never recorded
    dataReady: seq<nat>, readDone: seq<seq<nat>>,
    // history: what each slot holds, and everything published so far
    tokens: seq<nat>, numbers: seq<nat>, ledger: seq<Publication>,
    log: Log,
    lessees: map<nat, Lessee>)

  function Init(c: Config): State {
    var zeros := seq(c.slots, i => 0);
    State(zeros, zeros, zeros, None, 0, Idle, zeros, seq(c.slots, i => seq(c.consumers, j => 0)),
          zeros, zeros, [], [], map[])
  }

  /** The publication number of the newest frame, 0 before the first. */
  function NewestNo(s: State): nat {
    if s.latest.Some? && s.latest.value < |s.numbers| then s.numbers[s.latest.value] else 0
  }

  // ------------------------------------------------------------------- steps

  datatype Action =
    | AcquireWrite(blocking: bool)
    | ProducerStep(retired: bool)   // `retired` answers the event query, if there is one
    | EnqueueWrite(token: nat)
    | Publish(stamp: nat)
    | Abandon
    | StartLease(id: nat, consumer: nat, want: Want, maxAttempts: nat)
    | LesseeStep(id: nat)
    | WaitReady(id: nat)
    | EnqueueRead(id: nat)
    | Drop(id: nat)

  function Bump(xs: seq<nat>, i: nat): seq<nat>
    requires i < |xs|
  {
    xs[i := xs[i] + 1]
  }

  function Lower(xs: seq<nat>, i: nat): seq<nat>
    requires i < |xs|
  {
    if xs[i] == 0 then xs else xs[i := xs[i] - 1]
  }

  function RecordRead(events: seq<seq<nat>>, slot: nat, consumer: nat, at: nat): seq<seq<nat>>
    requires slot < |events| && consumer < |events[slot]|
  {
    var row: seq<nat> := events[slot][consumer := at];
    events[slot := row]
  }

  /** All indices in range: what every step needs to be defined. */
  ghost predicate Shape(c: Config, s: State) {
    && c.Legal()
    && |s.seqNo| == |s.readers| == |s.stamps| == |s.dataReady| == |s.readDone| == c.slots
    && |s.tokens| == |s.numbers| == c.slots
    && (forall i :: 0 <= i < c.slots ==> |s.readDone[i]| == c.consumers)
    && s.nextWrite < c.slots
    && (s.latest.Some? ==> s.latest.value < c.slots)
    && ProducerInRange(c, s.producer)
    && (forall id :: id in s.lessees ==> LesseeInRange(c, s.lessees[id]))
  }

  predicate InRange(c: Config, o: Option<nat>) {
    o.Some? ==> o.value < c.slots
  }

  predicate ProducerInRange(c: Config, p: Producer) {
    match p
    case Idle => true
    case Failed => true
    case Scanning(scan) => scan.at <= c.slots && InRange(c, scan.busy) && InRange(c, scan.reading)
    case Querying(scan) => scan.at < c.slots && InRange(c, scan.busy) && InRange(c, scan.reading)
    case Parked(busy) => busy < c.slots
    case Ordering(slot, k) => slot < c.slots && k <= c.consumers
    case _ => p.slot < c.slots
  }

  predicate CandidateInRange(c: Config, best: Option<Candidate>) {
    best.Some? ==> best.value.slot < c.slots
  }

  predicate StageInRange(c: Config, g: Stage) {
    match g
    case Peeking => true
    case Attempting => true
    case Missed => true
    case LoadingSeq(at, best) => at <= c.slots && CandidateInRange(c, best)
    case LoadingStamp(at, _, best) => at < c.slots && CandidateInRange(c, best)
    case _ => g.slot < c.slots
  }

  predicate LesseeInRange(c: Config, l: Lessee) {
    l.consumer < c.consumers && StageInRange(c, l.stage)
  }

  /** acquire_write / try_acquire_write up to the first shared access. */
  function StartAcquire(c: Config, s: State, blocking: bool): State
    requires c.Legal()
  {
    if !s.producer.Idle? then s
    else match c.policy
      case ScanForFree => BeginScan(s, blocking)
      case RoundRobin =>
        if !blocking then s   // try_acquire_write refuses this policy
        else s.(producer := Claimed(true, s.nextWrite), nextWrite := (s.nextWrite + 1) % c.slots)
  }

  function BeginScan(s: State, blocking: bool): State {
    s.(producer := Scanning(Scan(blocking, s.latest, 0, None, None)))
  }

  function Or(first: Option<nat>, slot: nat): Option<nat> {
    if first.None? then Some(slot) else first
  }

  /** The slot claim_free_slot looks at next. */
  function CandidateSlot(c: Config, nextWrite: nat, at: nat): nat
    requires c.Legal()
  {
    (nextWrite + at) % c.slots
  }

  /** One iteration of claim_free_slot's scan, up to the reader count. */
  function ScanStep(c: Config, s: State, p: Scan): State
    requires Shape(c, s)
  {
    if p.at >= c.slots then ScanOver(c, s, p)
    else
      var slot := CandidateSlot(c, s.nextWrite, p.at);
      if p.newest == Some(slot) then s.(producer := Scanning(p.(at := p.at + 1)))
      else if s.readers[slot] != 0 then
        s.(producer := Scanning(p.(at := p.at + 1, busy := Or(p.busy, slot))))
      else s.(producer := Querying(p))
  }

  /** The end of a scan that found no idle slot. */
  function ScanOver(c: Config, s: State, p: Scan): State
    requires c.Legal()
  {
    if !p.blocking then s.(producer := Idle)
    else if p.reading.Some? then
      s.(nextWrite := (p.reading.value + 1) % c.slots, producer := Claimed(true, p.reading.value))
    else if p.busy.None? then s.(producer := Failed)
    else s.(producer := Parked(p.busy.value))
  }

  function QueryStep(c: Config, s: State, p: Scan, retired: bool): State
    requires c.Legal()
  {
    var slot := CandidateSlot(c, s.nextWrite, p.at);
    if retired then s.(nextWrite := (slot + 1) % c.slots, producer := Claimed(p.blocking, slot))
    else s.(producer := Scanning(p.(at := p.at + 1, reading := Or(p.reading, slot))))
  }

  /** The producer's next atomic operation. */
  function ProducerNext(c: Config, s: State, retired: bool): State
    requires Shape(c, s)
  {
    match s.producer
    case Scanning(scan) => ScanStep(c, s, scan)
    case Querying(scan) => QueryStep(c, s, scan, retired)
    case Parked(_) => BeginScan(s, true)
    case Claimed(b, p) => s.(seqNo := Bump(s.seqNo, p), producer := Fenced(b, p))
    case Fenced(b, p) =>
      if s.readers[p] == 0 then s.(producer := Ordering(p, 0))
      else if b then s
      else s.(producer := BackingOut(p))
    case BackingOut(p) => s.(seqNo := Bump(s.seqNo, p), producer := Idle)
    case Ordering(p, k) =>
      if k == c.consumers then s.(producer := Reusing(p))
      else s.(log := s.log + [Entry(ProducerStream, Wait(ConsumerStream(k), s.readDone[p][k]))],
              producer := Ordering(p, k + 1))
    case Reusing(p) =>
      if c.reuse.HostSync? then s.(producer := Writing(p))
      else s.(log := s.log + [Entry(ProducerStream, Wait(ProducerStream, s.dataReady[p]))],
              producer := Writing(p))
    case Recorded(p, t) => s.(stamps := s.stamps[p := t], producer := Stamped(p))
    case Stamped(p) =>
      s.(seqNo := Bump(s.seqNo, p), producer := Bumped(p),
         ledger := s.ledger + [Publication(s.stamps[p], s.tokens[p])],
         numbers := s.numbers[p := |s.ledger| + 1])
    case Bumped(p) => s.(latest := Some(p), producer := Idle)
    case AbandonStamped(p) => s.(seqNo := Bump(s.seqNo, p), producer := Idle)
    case _ => s   // Idle, Failed, Writing: nothing pending
  }

  function SetStage(s: State, id: nat, g: Stage): State
    requires id in s.lessees
  {
    s.(lessees := s.lessees[id := s.lessees[id].(stage := g)])
  }

  function Distance(x: nat, y: nat): nat {
    if x > y then x - y else y - x
  }

  /** One slot of lease_by_timestamp's scan, its seq already read and usable. */
  function Consider(want: Want, at: nat, q: nat, stamp: nat, best: Option<Candidate>): Stage
    requires want.ByTimestamp?
  {
    var diff := Distance(want.stamp, stamp);
    var bestDiff := if best.None? then 0xFFFF_FFFF_FFFF_FFFF else Distance(want.stamp, best.value.stamp);
    if stamp == NO_TIMESTAMP || diff > want.tolerance then LoadingSeq(at + 1, best)
    else if !want.closest then Chosen(at, q, Some(stamp))
    else if diff < bestDiff then LoadingSeq(at + 1, Some(Candidate(at, q, stamp)))
    else LoadingSeq(at + 1, best)
  }

  /** A lease attempt after its next atomic operation. */
  function Advance(c: Config, s: State, l: Lessee): Lessee
    requires Shape(c, s) && LesseeInRange(c, l)
  {
    match l.stage
    case Peeking =>
      l.(stage := if s.latest.None? then Missed else Peeked(s.latest.value))
    case Peeked(p) =>
      var q := s.seqNo[p];
      l.(stage :=
        if q % 2 == 1 || (l.want.NextReference? && l.want.last == Some(Taken(p, q))) then Missed
        else Attempting)
    case Attempting =>
      if l.attempts == 0 then l.(stage := Missed)
      else l.(attempts := l.attempts - 1,
              stage := if l.want.ByTimestamp? then LoadingSeq(0, None)
                       else if s.latest.None? then Missed
                       else SawLatest(s.latest.value))
    case SawLatest(p) =>
      l.(stage := if s.seqNo[p] % 2 == 1 then Attempting else Chosen(p, s.seqNo[p], None))
    case LoadingSeq(i, best) =>
      l.(stage :=
        if i == c.slots then
          if best.None? then Missed else Chosen(best.value.slot, best.value.seqNo, Some(best.value.stamp))
        else if s.seqNo[i] == 0 || s.seqNo[i] % 2 == 1 then LoadingSeq(i + 1, best)
        else LoadingStamp(i, s.seqNo[i], best))
    case LoadingStamp(i, q, best) =>
      if !l.want.ByTimestamp? then l
      else l.(stage := Consider(l.want, i, q, s.stamps[i], best))
    case Chosen(p, q, seen) => l.(stage := Counted(p, q, seen))
    case Counted(p, q, seen) =>
      l.(stage := if s.seqNo[p] != q then Undoing(p)
                  else Validated(p, q, seen, Snapshot(s.stamps[p], s.tokens[p], s.numbers[p], NewestNo(s))))
    case Undoing(p) => l.(stage := Attempting)
    case Validated(p, q, seen, snap) => l.(stage := Leased(p, q, s.stamps[p], snap, false))
    case Dropping(p, q, snap) => l.(stage := Released(p, q, snap))
    case _ => l   // Leased, Released, Missed: nothing pending
  }

  /** The reader counts after that operation: raised before the re-check, lowered
      when the re-check failed and when a lease is dropped. */
  function CountsAfter(readers: seq<nat>, g: Stage): seq<nat>
    requires g.Chosen? || g.Undoing? || g.Dropping? ==> g.slot < |readers|
  {
    match g
    case Chosen(p, _, _) => Bump(readers, p)
    case Undoing(p) => Lower(readers, p)
    case Dropping(p, _, _) => Lower(readers, p)
    case _ => readers
  }

  function LesseeNext(c: Config, s: State, id: nat): State
    requires Shape(c, s) && id in s.lessees
  {
    var l := s.lessees[id];
    assert LesseeInRange(c, l);
    s.(lessees := s.lessees[id := Advance(c, s, l)], readers := CountsAfter(s.readers, l.stage))
  }

  /** A step by any thread. An action that is not available leaves the state alone. */
  ghost function Next(c: Config, s: State, a: Action): State
    requires Shape(c, s)
  {
    match a
    case AcquireWrite(b) => StartAcquire(c, s, b)
    case ProducerStep(retired) => ProducerNext(c, s, retired)
    case EnqueueWrite(token) =>
      if !s.producer.Writing? then s
      else
        var p := s.producer.slot;
        s.(log := s.log + [Entry(ProducerStream, Write(p, token))], tokens := s.tokens[p := token])
    case Publish(stamp) =>
      if !s.producer.Writing? then s
      else
        var p := s.producer.slot;
        s.(dataReady := s.dataReady[p := |s.log|], producer := Recorded(p, stamp))
    case Abandon =>
      if !s.producer.Writing? then s
      else
        var p := s.producer.slot;
        s.(stamps := s.stamps[p := NO_TIMESTAMP], numbers := s.numbers[p := 0],
           producer := AbandonStamped(p))
    case StartLease(id, consumer, want, n) =>
      // an out-of-range consumer id throws; a continuation names a frame this
      // consumer really took
      if id in s.lessees || consumer >= c.consumers || !Continues(s, want) then s
      else s.(lessees := s.lessees[id :=
                Lessee(consumer, want, n, if want.NextReference? then Peeking else Attempting)])
    case LesseeStep(id) => if id in s.lessees then LesseeNext(c, s, id) else s
    case WaitReady(id) =>
      if id !in s.lessees || !s.lessees[id].stage.Leased? then s
      else
        var l := s.lessees[id];
        SetStage(s.(log := s.log + [Entry(ConsumerStream(l.consumer),
                                          Wait(ProducerStream, s.dataReady[l.stage.slot]))]),
                 id, l.stage.(waited := true))
    case EnqueueRead(id) =>
      // consumers wait on data_ready before reading
      if id !in s.lessees || !s.lessees[id].stage.Leased? || !s.lessees[id].stage.waited then s
      else
        var l := s.lessees[id];
        s.(log := s.log + [Entry(ConsumerStream(l.consumer),
                                 Read(l.stage.slot, l.stage.stamp, l.stage.snap.token,
                                      s.dataReady[l.stage.slot]))])
    case Drop(id) =>
      if id !in s.lessees || !s.lessees[id].stage.Leased? then s
      else
        var l := s.lessees[id];
        var p := l.stage.slot;
        SetStage(s.(readDone := RecordRead(s.readDone, p, l.consumer, |s.log|)),
                 id, Dropping(p, l.stage.seqNo, l.stage.snap))
  }

  function Max(x: nat, y: nat): nat {
    if x > y then x else y
  }

  /** A pair consumer that took the frame of lessee `l` goes on from there. */
  function ContinueFrom(l: Lessee): Want
    requires l.want.NextReference? && l.stage.Took()
  {
    var g := l.stage;
    NextReference(Some(Taken(g.slot, g.seqNo)), Max(l.want.highest, g.snap.no),
                  l.want.safe && g.snap.no <= g.snap.newestNo)
  }

  /** A pair consumer starts with nothing taken, or resumes from a frame it took. */
  ghost predicate Continues(s: State, want: Want) {
    want.NextReference? ==>
      || want == NextReference(None, 0, true)
      || exists id :: id in s.lessees && s.lessees[id].want.NextReference?
                      && s.lessees[id].stage.Took() && want == ContinueFrom(s.lessees[id])
  }

  // -------------------------------------------------------------------- runs

  lemma InitShape(c: Config)
    requires c.Legal()
    ensures Shape(c, Init(c))
  {
  }

  lemma ShapeScan(c: Config, s: State, retired: bool)
    requires Shape(c, s) && (s.producer.Scanning? || s.producer.Querying? || s.producer.Parked?)
    ensures Shape(c, ProducerNext(c, s, retired))
  {
  }

  /** The steps behind a claimed slot change sequences at one index, if at all. */
  lemma ShapeClaimed(c: Config, s: State, retired: bool)
    requires Shape(c, s) && !(s.producer.Scanning? || s.producer.Querying? || s.producer.Parked?)
    ensures Shape(c, ProducerNext(c, s, retired))
  {
    var t := ProducerNext(c, s, retired);
    assert t.readDone == s.readDone && t.lessees == s.lessees;
    assert ProducerInRange(c, t.producer);
  }

  lemma ShapeProducer(c: Config, s: State, retired: bool)
    requires Shape(c, s)
    ensures Shape(c, ProducerNext(c, s, retired))
  {
    if s.producer.Scanning? || s.producer.Querying? || s.producer.Parked? { ShapeScan(c, s, retired); }
    else { ShapeClaimed(c, s, retired); }
  }

  lemma ShapeLessee(c: Config, s: State, id: nat)
    requires Shape(c, s) && id in s.lessees
    ensures Shape(c, LesseeNext(c, s, id))
  {
    var l := s.lessees[id];
    assert LesseeInRange(c, l);
    assert LesseeInRange(c, Advance(c, s, l));
  }

  lemma ShapeStep(c: Config, s: State, a: Action)
    requires Shape(c, s)
    ensures Shape(c, Next(c, s, a))
  {
    match a
    case ProducerStep(retired) => ShapeProducer(c, s, retired);
    case LesseeStep(id) => if id in s.lessees { ShapeLessee(c, s, id); }
    case _ =>
  }

  /** The state `acts` leads to from `s`, one atomic operation at a time. */
  ghost function Steps(c: Config, s: State, acts: seq<Action>): (t: State)
    requires Shape(c, s)
    ensures Shape(c, t)
  {
    if acts == [] then s
    else
      var before := Steps(c, s, acts[..|acts| - 1]);
      ShapeStep(c, before, acts[|acts| - 1]);
      Next(c, before, acts[|acts| - 1])
  }

  /** Some interleaving of the threads leads from `s` to `t`. */
  ghost predicate Leads(c: Config, s: State, t: State) {
    Shape(c, s) && exists acts :: t == Steps(c, s, acts)
  }

  ghost predicate Reachable(c: Config, s: State) {
    c.Legal() && Leads(c, Init(c), s)
  }

  lemma LeadsNowhere(c: Config, s: State)
    requires Shape(c, s)
    ensures Leads(c, s, s)
  {
    assert s == Steps(c, s, []);
  }

  lemma LeadsOn(c: Config, s: State, t: State, a: Action)
    requires Leads(c, s, t)
    ensures Shape(c, t) && Leads(c, s, Next(c, t, a))
  {
    var acts :| t == Steps(c, s, acts);
    assert (acts + [a])[..|acts + [a]| - 1] == acts;
    assert Next(c, t, a) == Steps(c, s, acts + [a]);
  }

  lemma {:induction false} StepsJoin(c: Config, s: State, before: seq<Action>, after: seq<Action>)
    requires Shape(c, s)
    ensures Steps(c, s, before + after) == Steps(c, Steps(c, s, before), after)
    decreases |after|
  {
    if after == [] {
      assert before + after == before;
    } else {
      var init := after[..|after| - 1];
      assert (before + after)[..|before + after| - 1] == before + init;
      StepsJoin(c, s, before, init);
    }
  }

  lemma LeadsJoin(c: Config, s: State, t: State, u: State)
    requires Leads(c, s, t) && Leads(c, t, u)
    ensures Leads(c, s, u)
  {
    var before :| t == Steps(c, s, before);
    var after :| u == Steps(c, t, after);
    StepsJoin(c, s, before, after);
  }
}
