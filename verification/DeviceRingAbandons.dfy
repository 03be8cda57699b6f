/** When a lease is of an abandoned slot. Under RoundRobin a producer that has given
    up as many write leases in a row as the ring has slots has given up the newest
    one; under ScanForFree latest_ never names an abandoned slot. */
module DeviceRingAbandons {
  import opened Options
  import opened GpuLog
  import opened DeviceRing
  import opened DeviceRingSafety
  import opened DeviceRingOrder
  import opened DeviceRingGpu
  import opened DeviceRingRuns
  import opened DeviceRingBuffer
  import opened RingArithmetic

  /** How many write leases have been given up since latest_ was last stored. */
  ghost function Streak(c: Config, acts: seq<Action>): nat
    requires c.Legal()
  {
    if acts == [] then 0
    else
      var before, a := acts[..|acts| - 1], acts[|acts| - 1];
      InitShape(c);
      StreakAfter(Steps(c, Init(c), before), a, Streak(c, before))
  }

  function StreakAfter(s: State, a: Action, n: nat): nat {
    if a.Abandon? && s.producer.Writing? then n + 1
    else if a.ProducerStep? && s.producer.Bumped? then 0
    else n
  }

  /** A slot is claimed and its lease neither given up nor published for good. */
  predicate Busy(p: Producer) {
    p.Claimed? || p.Fenced? || p.Ordering? || p.Reusing? || p.Writing? || p.Recorded? || p.Stamped? || p.Bumped?
  }

  /** The only stages under RoundRobin. */
  predicate Straight(p: Producer) {
    Busy(p) || p.Idle? || p.AbandonStamped?
  }

  /** The slot `k` behind slot `p`. */
  function Behind(c: Config, p: nat, k: nat): nat
    requires c.Legal()
  {
    (p + k) % c.slots
  }

  /** The slots given up lie behind the newest one, and then the one in use. */
  ghost predicate InLine(c: Config, s: State, n: nat)
    requires Shape(c, s)
  {
    && Straight(s.producer)
    && (Busy(s.producer) ==> s.nextWrite == Behind(c, s.producer.slot, 1))
    && (s.producer.Claimed? || s.producer.Fenced? ==> s.producer.blocking)
    && (s.producer.Bumped? ==> s.numbers[s.producer.slot] > 0)
    && (s.latest.Some? && Busy(s.producer) ==> s.producer.slot == Behind(c, s.latest.value, n + 1))
    && (s.latest.Some? && !Busy(s.producer) ==> s.nextWrite == Behind(c, s.latest.value, n + 1))
  }

  /** The newest slot is marked abandoned. (A publish into that very slot has numbered
      it before it stores latest_.) */
  ghost predicate Marked(c: Config, s: State, n: nat)
    requires Shape(c, s)
  {
    s.latest.Some? ==>
      (s.numbers[s.latest.value] == 0
       <==> n >= c.slots && !(s.producer.Bumped? && s.producer.slot == s.latest.value))
  }

  lemma BehindNext(c: Config, p: nat, k: nat)
    requires c.Legal()
    ensures Behind(c, Behind(c, p, k), 1) == Behind(c, p, k + 1)
  {
    RingStep(p + k, c.slots);
  }

  lemma BehindItself(c: Config, p: nat, k: nat)
    requires c.Legal() && p < c.slots
    ensures Behind(c, p, k) == p <==> k % c.slots == 0
    ensures 0 < k < c.slots ==> Behind(c, p, k) != p
    ensures Behind(c, p, c.slots) == p
  {
    SamePosition(p, k, c.slots);
    SamePosition(p, c.slots, c.slots);
    ModIs(p, 0, p, c.slots);
    ModIs(c.slots, 1, 0, c.slots);
    if k < c.slots { ModIs(k, 0, k, c.slots); }
  }

  lemma ClaimInLine(c: Config, s: State, blocking: bool, n: nat)
    requires Shape(c, s) && c.policy.RoundRobin? && InLine(c, s, n) && Marked(c, s, n)
    ensures var t := StartAcquire(c, s, blocking); Shape(c, t) ==> InLine(c, t, n) && Marked(c, t, n)
  {
    if s.latest.Some? { BehindNext(c, s.latest.value, n + 1); }
    assert Behind(c, s.nextWrite, 1) == (s.nextWrite + 1) % c.slots;
    hide Behind;
  }

  lemma AbandonInLine(c: Config, s: State, n: nat)
    requires Shape(c, s) && InLine(c, s, n) && Marked(c, s, n) && s.producer.Writing?
    ensures var t := Next(c, s, Abandon); Shape(c, t) ==> InLine(c, t, n + 1) && Marked(c, t, n + 1)
  {
    if s.latest.Some? {
      BehindNext(c, s.latest.value, n + 1);
      BehindItself(c, s.latest.value, n + 1);
    }
    hide Behind;
  }

  lemma ProducerInLine(c: Config, s: State, retired: bool, n: nat)
    requires Shape(c, s) && InLine(c, s, n) && Marked(c, s, n)
    ensures var t := ProducerNext(c, s, retired);
            var m := if s.producer.Bumped? then 0 else n;
            Shape(c, t) ==> InLine(c, t, m) && Marked(c, t, m)
  {
    hide Behind;
  }

  lemma OtherInLine(c: Config, s: State, a: Action, n: nat)
    requires Shape(c, s) && InLine(c, s, n) && Marked(c, s, n)
    requires !a.AcquireWrite? && !a.ProducerStep? && !(a.Abandon? && s.producer.Writing?)
    ensures var t := Next(c, s, a); Shape(c, t) ==> InLine(c, t, n) && Marked(c, t, n)
  {
    hide Behind;
  }

  lemma StepInLine(c: Config, s: State, a: Action, n: nat)
    requires Shape(c, s) && c.policy.RoundRobin? && InLine(c, s, n) && Marked(c, s, n)
    ensures var t, m := Next(c, s, a), StreakAfter(s, a, n); Shape(c, t) && InLine(c, t, m) && Marked(c, t, m)
  {
    ShapeStep(c, s, a);
    match a
    case AcquireWrite(blocking) => ClaimInLine(c, s, blocking, n);
    case ProducerStep(retired) => ProducerInLine(c, s, retired, n);
    case Abandon => if s.producer.Writing? { AbandonInLine(c, s, n); } else { OtherInLine(c, s, a, n); }
    case _ => OtherInLine(c, s, a, n);
  }

  lemma {:induction false} StepsInLine(c: Config, acts: seq<Action>)
    requires c.Legal() && c.policy.RoundRobin? && Shape(c, Init(c))
    ensures var s := Steps(c, Init(c), acts); InLine(c, s, Streak(c, acts)) && Marked(c, s, Streak(c, acts))
  {
    if acts != [] {
      hide InLine, Marked;
      var before, a := acts[..|acts| - 1], acts[|acts| - 1];
      StepsInLine(c, before);
      StepInLine(c, Steps(c, Init(c), before), a, Streak(c, before));
    }
  }

  // ------------------------------------------------------------ what it means

  /** The newest slot has been given up, as the producer can tell. */
  ghost predicate GivenUp(c: Config, acts: seq<Action>)
    requires c.Legal() && Shape(c, Init(c))
  {
    var s := Steps(c, Init(c), acts);
    c.policy.RoundRobin? && Streak(c, acts) >= c.slots && !(s.producer.Bumped? && s.latest == Some(s.producer.slot))
  }

  /** latest_ names an abandoned slot exactly if the policy is RoundRobin and the last
      `slots` write leases were all given up, up to the moment at which a new frame in
      that very slot only lacks the store of latest_. */
  lemma LatestIsAbandoned(c: Config, acts: seq<Action>)
    requires c.Legal() && Shape(c, Init(c)) && Steps(c, Init(c), acts).latest.Some?
    ensures var s := Steps(c, Init(c), acts); s.numbers[s.latest.value] == 0 <==> GivenUp(c, acts)
  {
    var s := Steps(c, Init(c), acts);
    if c.policy.RoundRobin? {
      StepsInLine(c, acts);
    } else {
      assert Reachable(c, s);
      ReachableOrder(c, s);
    }
  }

  /** What a lease_latest gets that nothing interrupts, with latest_ at rest: the frame
      latest_ stands for, or an abandoned slot in exactly that case. */
  lemma FreshLease(c: Config, acts: seq<Action>, attempts: nat)
    requires c.Legal() && Shape(c, Init(c)) && attempts > 0
    requires var s := Steps(c, Init(c), acts); s.latest.Some? && !s.producer.Fences(s.latest.value)
    ensures var s := Steps(c, Init(c), acts);
            var lease := LatestLease(s, attempts);
            && lease.Some? && lease.value.slot == s.latest.value
            && if GivenUp(c, acts) then lease.value.stamp == NO_TIMESTAMP
               else 0 < NewestNo(s) <= |s.ledger| && lease.value.stamp == s.ledger[NewestNo(s) - 1].stamp
  {
    var s := Steps(c, Init(c), acts);
    assert Reachable(c, s);
    LatestIsAbandoned(c, acts);
    hide GivenUp, Steps, Reachable, LatestLease;
    RestLease(c, s, attempts);
  }

  lemma RestLease(c: Config, s: State, attempts: nat)
    requires Reachable(c, s) && Shape(c, s) && s.latest.Some? && !s.producer.Fences(s.latest.value) && attempts > 0
    ensures var lease := LatestLease(s, attempts);
            && lease.Some? && lease.value.slot == s.latest.value
            && if s.numbers[s.latest.value] == 0 then lease.value.stamp == NO_TIMESTAMP
               else 0 < NewestNo(s) <= |s.ledger| && lease.value.stamp == s.ledger[NewestNo(s) - 1].stamp
  {
    AtRest(c, s, s.latest.value);
    ReachableInv(c, s);
    hide Parity, Counting, Leases;
    assert SlotRecord(s, s.latest.value);
  }

  /** lease_latest passes its re-check. The frame it gets is an abandoned one only if
      latest_ has moved on since it was loaded or the newest slot was given up. */
  lemma AbandonedLease(c: Config, acts: seq<Action>, id: nat)
    requires c.Legal() && Shape(c, Init(c)) && id in Steps(c, Init(c), acts).lessees
    requires var s := Steps(c, Init(c), acts);
             var g := s.lessees[id].stage;
             g.Counted? && g.slot < c.slots && s.seqNo[g.slot] == g.seqNo && s.latest.Some?
    ensures var s := Steps(c, Init(c), acts);
            var g := LesseeNext(c, s, id).lessees[id].stage;
            && g.Validated? && (g.slot == s.latest.value ==> (g.snap.no == 0 <==> GivenUp(c, acts)))
            && (g.snap.no == 0 ==> s.latest != Some(g.slot) || GivenUp(c, acts))
  {
    LatestIsAbandoned(c, acts);
    hide GivenUp, Steps;
  }

  // ------------------------------------------------------------ that it happens

  /** Write leases are given up until the first slot is next. */
  lemma {:induction false} GiveUpRun(c: Config, s: State) returns (t: State)
    requires Reachable(c, s) && Shape(c, s) && s.producer.Idle? && c.policy.RoundRobin?
    requires forall p | 0 <= p < c.slots :: s.readers[p] == 0
    ensures Reachable(c, t) && Shape(c, t) && t.producer.Idle? && t.nextWrite == 0
    ensures t.readers == s.readers && t.latest == s.latest && t.lessees == s.lessees && t.ledger == s.ledger
    decreases c.slots - s.nextWrite
  {
    hide Reachable, Leads;
    NextInLine(s.nextWrite, c.slots);
    if s.nextWrite == 0 {
      t := s;
    } else {
      var u := WriteRun(c, s);
      AbandonRun(c, u);
      t := Abandoned(u, s.nextWrite);
      ReachesOn(c, u, t);
      ReachableShape(c, t);
      if t.nextWrite != 0 { t := GiveUpRun(c, t); }
    }
  }

  /** Under RoundRobin the producer can come to write the newest slot, on a ring of any
      size. */
  lemma NewestIsWritten(c: Config) returns (t: State)
    requires c.Legal() && c.policy.RoundRobin?
    ensures Reachable(c, t) && Shape(c, t) && t.latest.Some? && t.producer == Writing(t.latest.value)
    ensures t.lessees == map[]
  {
    InitShape(c);
    LeadsNowhere(c, Init(c));
    var s1 := FrameRun(c, Init(c), 5);
    var s2 := GiveUpRun(c, s1);
    t := WriteRun(c, s2);
  }

  /** The frame lost there needs no stale load: whoever asks for the newest frame once
      the lease is given up gets it, and reads it unordered. */
  lemma FreshRace(c: Config, s: State, id: nat, token: nat) returns (t: State)
    requires Reachable(c, s) && s.latest.Some? && s.producer == Writing(s.latest.value) && id !in s.lessees
    ensures Reachable(c, t)
    ensures UnorderedRead(s, t)
  {
    ReachableGpu(c, s);
    var s1 := AbandonPick(c, s, token);
    hide Leads, Reachable, GpuInv;
    var s2 := LoadRun(c, s1, id);
    t := StaleRead(c, s2, id);
    LeadsJoin(c, s1, s2, t);
    ReachesOn(c, s1, t);
    NotOrdered(c, s, t, s.producer.slot, 0, token, s2.tokens[s.producer.slot]);
  }

  /** A consumer asks for the newest frame, up to its load of latest_. */
  lemma LoadRun(c: Config, s: State, id: nat) returns (t: State)
    requires Shape(c, s) && s.latest.Some? && id !in s.lessees
    ensures Leads(c, s, t) && Shape(c, t)
    ensures t == s.(lessees := s.lessees[id := Lessee(0, Latest, 0, SawLatest(s.latest.value))])
  {
    LeadsNowhere(c, s);
    Onwards(c, s, s, StartLease(id, 0, Latest, 1));
    hide Leads;
    var s1 := s.(lessees := s.lessees[id := Lessee(0, Latest, 1, Attempting)]);
    t := LoadLatest(c, s1, id);
    LeadsJoin(c, s, s1, t);
  }
}
