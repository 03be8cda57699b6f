/** Pairs the frames of two device rings by timestamp: a step takes the newest frame of
    the reference ring and looks for its partner in the other one, while other threads
    use both rings. */
module RingPairConsumer {
  import opened Options
  import opened DeviceRing
  import opened DeviceRingSafety
  import DeviceRingOrder
  import opened DeviceRingRuns
  import opened DeviceRingBuffer

  const MAX_ATTEMPTS: nat := 4

  datatype Pair = Pair(pairId: nat, reference: Lease, other: Lease, skew: int)

  /** What a step gets from the rings: the peek, the lease of the newest frame, the
      publication count read behind it, and what the last lookup of a partner brought,
      after so many `retries`. */
  datatype Answers = Answers(peek: Option<Taken>, reference: Option<Lease>, published: nat,
                             retries: nat, partner: Option<Lease>)

  datatype Consumer = Consumer(last: Option<Taken>, lastPublished: nat, nextPairId: nat,
                               paired: nat, unpaired: nat, late: nat, missed: nat, skipped: nat, worst: nat,
                               pairs: seq<Pair>)

  function Beginning(): Consumer {
    Consumer(None, 0, 0, 0, 0, 0, 0, 0, 0, [])
  }

  // ------------------------------------------------------- what the rings answer

  /** Some run of ring `c` has come to a live lease that this is. */
  ghost predicate CanLease(c: Config, want: Want, lease: Lease) {
    exists s, id :: LeasedIn(c, s, id, want, lease)
  }

  ghost predicate LeasedIn(c: Config, s: State, id: nat, want: Want, lease: Lease) {
    Reachable(c, s) && id in s.lessees && s.lessees[id].want == want && HeldBy(s.lessees[id].stage) == Some(lease)
  }

  /** A lookup depends on sequence numbers and stamps alone. */
  lemma MatchReads(s: State, t: State, want: Want, attempts: nat)
    requires want.ByTimestamp? && |s.seqNo| == |s.stamps| && Unmoved(s, t)
    ensures MatchingLease(t, want, attempts) == MatchingLease(s, want, attempts)
  {
    SearchReads(s, t, want, 0, None);
  }

  lemma LeaseIs(c: Config, s: State, id: nat, want: Want, lease: Lease)
    requires Reachable(c, s) && id in s.lessees && s.lessees[id].want == want
    requires HeldBy(s.lessees[id].stage) == Some(lease)
    ensures CanLease(c, want, lease)
  {
    assert LeasedIn(c, s, id, want, lease);
  }

  function Nearby(stamp: nat, tolerance: nat): Want {
    ByTimestamp(stamp, tolerance, true)
  }

  /** A reference frame was leased by a pair consumer's attempt, a partner by a lookup
      near its stamp; without one, all retries were made. */
  ghost predicate Sourced(reference: Config, other: Config, tolerance: nat, retries: nat, a: Answers) {
    a.reference.Some? ==>
      && (exists want: Want :: want.NextReference? && CanLease(reference, want, a.reference.value))
      && (a.partner.Some? ==> CanLease(other, Nearby(a.reference.value.stamp, tolerance), a.partner.value))
      && a.retries <= retries && (a.partner.None? ==> a.retries == retries)
  }

  /** A partner is within the tolerance: every lease by timestamp is. */
  lemma PartnerIsNear(c: Config, stamp: nat, tolerance: nat, lease: Lease)
    requires CanLease(c, Nearby(stamp, tolerance), lease)
    ensures Distance(stamp, lease.stamp) <= tolerance
  {
    var s, id :| LeasedIn(c, s, id, Nearby(stamp, tolerance), lease);
    LeasedFrameIsStable(c, s, id);
  }

  // -------------------------------------------------------------- one step

  function Abs(x: int): nat {
    if x < 0 then -x else x
  }

  function Larger(x: nat, y: nat): nat {
    if y > x then y else x
  }

  /** The reference frame is taken. */
  function Took(c: Consumer, reference: Lease, published: nat): Consumer {
    c.(last := Some(Taken(reference.slot, reference.seqNo)), lastPublished := published,
       skipped := if c.last.Some? && published > c.lastPublished then c.skipped + (published - c.lastPublished - 1)
                  else c.skipped)
  }

  function Paired(c: Consumer, reference: Lease, other: Lease, attempt: nat): Consumer {
    var skew := other.stamp - reference.stamp;
    c.(pairs := c.pairs + [Pair(c.nextPairId, reference, other, skew)], nextPairId := c.nextPairId + 1,
       paired := c.paired + 1, late := if attempt > 0 then c.late + 1 else c.late,
       worst := Larger(c.worst, Abs(skew)))
  }

  function Finished(c: Consumer, reference: Lease, published: nat, attempt: nat, partner: Option<Lease>): Consumer {
    var d := Took(c, reference, published);
    if partner.None? then d.(unpaired := d.unpaired + 1) else Paired(d, reference, partner.value, attempt)
  }

  function Stepped(c: Consumer, a: Answers): Consumer {
    if a.peek.None? || a.peek == c.last then c
    else if a.reference.None? then c.(missed := c.missed + 1)
    else Finished(c, a.reference.value, a.published, a.retries, a.partner)
  }

  /** The step takes a frame. */
  predicate TakesFrame(c: Consumer, a: Answers) {
    a.peek.Some? && a.peek != c.last && a.reference.Some?
  }

  class RingPairConsumer {
    const reference: DeviceRingBuffer
    const other: DeviceRingBuffer
    const consumer: nat
    const tolerance: nat
    const retries: nat
    var last: Option<Taken>
    var lastPublished: nat
    var nextPairId: nat
    var paired: nat
    var unpaired: nat
    var late: nat
    var missed: nat
    var skipped: nat
    var worst: nat
    var pairs: seq<Pair>   // the callback's calls
    ghost var taker: Option<nat>   // the attempt that took the last frame
    ghost var looker: Option<nat>  // the last lookup of a partner

    ghost function View(): Consumer
      reads this
    {
      Consumer(last, lastPublished, nextPairId, paired, unpaired, late, missed, skipped, worst, pairs)
    }

    ghost predicate Apart() {
      && reference.Parts() !! other.Parts() && this !in reference.Parts() && this !in other.Parts()
      && consumer < reference.config.consumers && consumer < other.config.consumers
    }

    ghost predicate Valid()
      reads this, reference.Parts(), other.Parts()
    {
      && Apart() && reference.Live() && reference.Tallied() && other.Live() && other.Tallied()
      && lastPublished <= reference.published && TakerOk(reference.lessees, taker, last)
      && LookerOk(other.lessees, looker)
    }

    /** An unknown consumer id and one ring for both are refused before this. */
    constructor (reference: DeviceRingBuffer, other: DeviceRingBuffer, consumer: nat, tolerance: nat, retries: nat)
      requires reference.Live() && reference.Tallied() && other.Live() && other.Tallied()
      requires reference.Parts() !! other.Parts()
      requires consumer < reference.config.consumers && consumer < other.config.consumers
      ensures Valid() && View() == Beginning() && this.reference == reference && this.other == other
      ensures this.tolerance == tolerance && this.retries == retries
    {
      this.reference, this.other, this.consumer := reference, other, consumer;
      this.tolerance, this.retries := tolerance, retries;
      last, lastPublished, nextPairId, pairs, taker, looker := None, 0, 0, [], None, None;
      paired, unpaired, late, missed, skipped, worst := 0, 0, 0, 0, 0, 0;
    }

    method TakeReference(lease: Lease, published: nat)
      modifies this`last, this`lastPublished, this`skipped
      ensures View() == Took(old(View()), lease, published)
    {
      if last.Some? && published > lastPublished {
        skipped := skipped + (published - lastPublished - 1);
      }
      lastPublished := published;
      last := Some(Taken(lease.slot, lease.seqNo));
    }

    method EmitPair(lease: Lease, partner: Lease, attempt: nat)
      modifies this`late, this`worst, this`nextPairId, this`paired, this`pairs
      ensures View() == Paired(old(View()), lease, partner, attempt)
    {
      if attempt > 0 { late := late + 1; }
      var skew := partner.stamp - lease.stamp;
      var absSkew := if skew < 0 then -skew else skew;
      if absSkew > worst { worst := absSkew; }
      var id := nextPairId;
      nextPairId := nextPairId + 1;
      paired := paired + 1;
      pairs := pairs + [Pair(id, lease, partner, skew)];
    }

    /** Peeks and leases the newest frame, as the attempt `id` that goes on from the
        last frame taken. */
    method TakeNewest(ghost from: State, ghost calm: bool)
      returns (peek: Option<Taken>, lease: Option<Lease>, ghost id: nat)
      requires Apart() && reference.Since(from)
      requires TakerOk(from.lessees, taker, last) && TakerOk(reference.lessees, taker, last)
      modifies reference.Parts()
      ensures reference.Since(from) && old(reference.published) <= reference.published
      ensures id !in old(reference.lessees) && id in reference.lessees && reference.lessees[id].consumer == consumer
      ensures reference.lessees[id].want == WantOf(old(reference.lessees), taker)
      ensures reference.lessees[id].want.NextReference? && TakerOk(reference.lessees, taker, last)
      ensures peek.None? || peek == last ==> lease.None?
      ensures HeldBy(reference.lessees[id].stage) == lease
      ensures calm ==> peek == PeekOf(old(reference.View()))
      ensures calm && peek.Some? && peek != last ==> lease == LatestLease(old(reference.View()), MAX_ATTEMPTS)
    {
      ghost var before := reference.View();
      assert before.lessees == reference.lessees;
      id := UnusedId(reference.lessees);
      ghost var want := WantOf(reference.lessees, taker);
      TakerContinues(before, taker, last);
      hide TakerOk, WantOf, Continues, DeviceRingBuffer.Since;
      reference.Begin(from, id, consumer, want, MAX_ATTEMPTS);
      ghost var begun, l := reference.View(), reference.lessees[id];
      peek := reference.ViewLatest(from, id, calm, l);
      lease := None;
      if peek.Some? && peek != last {
        lease := LeaseNewest(from, calm, id, begun);
      }
      TakerKept(from);
    }

    /** The lease behind a peek; `begun` is the state before the peek. */
    method LeaseNewest(ghost from: State, ghost calm: bool, ghost id: nat, ghost begun: State)
      returns (lease: Option<Lease>)
      requires Apart() && reference.Since(from) && id in reference.lessees
      requires reference.lessees[id].stage.Attempting? && reference.lessees[id].attempts == MAX_ATTEMPTS
      requires reference.lessees[id].want.NextReference?
      requires calm ==> begun.latest == reference.View().latest && Unmoved(begun, reference.View())
      modifies reference.Parts()
      ensures reference.Since(from) && old(reference.published) <= reference.published && id in reference.lessees
      ensures var l := old(reference.lessees)[id];
              reference.lessees[id].want == l.want && reference.lessees[id].consumer == l.consumer
      ensures HeldBy(reference.lessees[id].stage) == lease
      ensures calm ==> lease == LatestLease(begun, MAX_ATTEMPTS)
    {
      ghost var before, l := reference.View(), reference.lessees[id];
      LatestBrings(reference.config, before, l);
      hide LatestEnd, DeviceRingBuffer.Since;
      lease := reference.AttemptLatest(from, id, calm, MAX_ATTEMPTS);
    }

    lemma TakerKept(from: State)
      requires reference.Since(from) && TakerOk(from.lessees, taker, last)
      ensures TakerOk(reference.lessees, taker, last)
    {
      TakerStays(reference.config, from, reference.View(), taker, last);
    }

    /** One lookup, seen from a state `before` with the same frames if nothing comes
        between. */
    method Lookup(ghost from: State, ghost calm: bool, ghost before: State, want: Want)
      returns (partner: Option<Lease>, ghost id: nat)
      requires Apart() && other.Since(from) && want.ByTimestamp? && Shape(other.config, before)
      requires calm ==> Unmoved(before, other.View())
      modifies other.Parts()
      ensures other.Since(from) && LookedUp(other.lessees, id, consumer, want, partner)
      ensures partner.Some? ==> CanLease(other.config, want, partner.value)
      ensures calm ==> partner == MatchingLease(before, want, MAX_ATTEMPTS) && Unmoved(before, other.View())
    {
      ghost var mid := other.View();
      Sizes(other.config, before);
      if calm { MatchReads(before, mid, want, MAX_ATTEMPTS); }
      id := UnusedId(other.lessees);
      partner := other.LeaseByTimestamp(from, id, calm, consumer, want, MAX_ATTEMPTS);
      if calm { SameFields(mid, other.View(), id, other.lessees[id]); }
      if partner.Some? { LeaseIs(other.config, other.View(), id, want, partner.value); }
    }

    /** Looks for a partner of a frame stamped `stamp`; attempt `id` was the last lookup. */
    method FindPartner(ghost from: State, ghost calm: bool, stamp: nat)
      returns (partner: Option<Lease>, attempt: nat, ghost id: nat)
      requires Apart() && other.Since(from)
      modifies other.Parts()
      ensures other.Since(from) && LookedUp(other.lessees, id, consumer, Nearby(stamp, tolerance), partner)
      ensures attempt <= retries && (partner.None? ==> attempt == retries)
      ensures partner.Some? ==> CanLease(other.config, Nearby(stamp, tolerance), partner.value)
      ensures calm ==> partner == MatchingLease(old(other.View()), Nearby(stamp, tolerance), MAX_ATTEMPTS)
    {
      var want := Nearby(stamp, tolerance);
      ghost var before := other.View();
      Sizes(other.config, before);
      assert Unmoved(before, before);
      hide Unmoved, CanLease, LookedUp, MatchingLease;
      partner, id := Lookup(from, calm, before, want);
      attempt := 0;
      while partner.None? && attempt < retries
        invariant attempt <= retries && other.Since(from) && LookedUp(other.lessees, id, consumer, want, partner)
        invariant partner.Some? ==> CanLease(other.config, want, partner.value)
        invariant calm ==> partner == MatchingLease(before, want, MAX_ATTEMPTS) && Unmoved(before, other.View())
      {
        partner, id := Lookup(from, calm, before, want);
        attempt := attempt + 1;
      }
    }

    /** The rest of a step that has leased a frame as attempt `id`. */
    method PairUp(ghost from: State, ghost elsewhere: State, ghost calm: bool, ghost id: nat, lease: Lease)
      returns (ok: bool, published: nat, attempt: nat, partner: Option<Lease>, ghost lookup: nat)
      requires Apart() && reference.Since(from) && other.Since(elsewhere)
      requires HeldAs(reference.lessees, id, consumer, lease)
      modifies this`last, this`lastPublished, this`skipped, this`unpaired, this`late, this`worst, this`nextPairId
      modifies this`paired, this`pairs, reference.Parts(), other.Parts()
      ensures reference.Since(from) && other.Since(elsewhere)
      ensures old(reference.published) <= published <= reference.published
      ensures var l := old(reference.lessees)[id];
              reference.IsAt(id, l.(stage := Released(lease.slot, lease.seqNo, l.stage.snap)))
      ensures LookerOk(other.lessees, Some(lookup)) && other.lessees[lookup].want == Nearby(lease.stamp, tolerance)
      ensures View() == Finished(old(View()), lease, published, attempt, partner) && ok == partner.Some?
      ensures attempt <= retries && (partner.None? ==> attempt == retries)
      ensures partner.Some? ==> CanLease(other.config, Nearby(lease.stamp, tolerance), partner.value)
      ensures calm ==>
                && published == old(reference.published)
                && partner == MatchingLease(old(other.View()), Nearby(lease.stamp, tolerance), MAX_ATTEMPTS)
    {
      hide CanLease, MatchingLease, Nearby, Took, Paired, DeviceRingBuffer.View, DeviceRingBuffer.Since;
      reference.Elapse(from, Attempt(id), calm);
      published := reference.published;
      TakeReference(lease, published);
      partner, attempt, lookup := FindPartner(elsewhere, calm, lease.stamp);
      if partner.None? {
        unpaired := unpaired + 1;
      } else {
        HandOver(from, elsewhere, calm, id, lookup, lease, partner.value, attempt);
      }
      reference.DropLease(from, id, calm, lease.slot, consumer);
      ok := partner.Some?;
    }

    /** The callback, on a stream ordered behind both frames; then the partner goes
        back. */
    method HandOver(ghost from: State, ghost elsewhere: State, ghost calm: bool, ghost id: nat, ghost lookup: nat,
                    lease: Lease, partner: Lease, attempt: nat)
      requires Apart() && reference.Since(from) && other.Since(elsewhere)
      requires HeldAs(reference.lessees, id, consumer, lease) && HeldAs(other.lessees, lookup, consumer, partner)
      modifies this`late, this`worst, this`nextPairId, this`paired, this`pairs, reference.Parts(), other.Parts()
      ensures reference.Since(from) && other.Since(elsewhere) && old(reference.published) <= reference.published
      ensures var l := old(reference.lessees)[id]; reference.IsAt(id, l.(stage := l.stage.(waited := true)))
      ensures LookerOk(other.lessees, Some(lookup))
      ensures other.lessees[lookup].want == old(other.lessees)[lookup].want
      ensures View() == Paired(old(View()), lease, partner, attempt)
    {
      hide DeviceRingBuffer.Since, Paired;
      reference.WaitReady(from, id, calm, lease.slot, consumer);
      other.WaitReady(elsewhere, lookup, calm, partner.slot, consumer);
      assert reference.lessees[id].stage.waited && other.lessees[lookup].stage.waited;
      EmitPair(lease, partner, attempt);
      other.DropLease(elsewhere, lookup, calm, partner.slot, consumer);
    }

    /** True if a pair was handed to the callback. Other threads use both rings all the
        while, unless `calm`. Both leases are back in their rings afterwards, which is
        part of `Valid()`. */
    method Step(ghost calm: bool) returns (ok: bool, ghost a: Answers)
      requires Valid()
      modifies this, reference.Parts(), other.Parts()
      ensures Valid() && Leads(reference.config, old(reference.View()), reference.View())
      ensures View() == Stepped(old(View()), a) && ok == (|pairs| == |old(pairs)| + 1)
      ensures ok <==> TakesFrame(old(View()), a) && a.partner.Some?
      ensures Sourced(reference.config, other.config, tolerance, retries, a)
      ensures TakesFrame(old(View()), a) ==>
                && old(reference.published) <= a.published <= reference.published
                && taker.Some? && taker.value in reference.lessees
                && reference.lessees[taker.value].want == WantOf(old(reference.lessees), old(taker))
                && looker.Some? && looker.value in other.lessees
                && other.lessees[looker.value].want == Nearby(a.reference.value.stamp, tolerance)
      ensures calm ==> a.peek == PeekOf(old(reference.View()))
      ensures calm && TakesFrame(old(View()), a) ==>
                && a.reference == LatestLease(old(reference.View()), MAX_ATTEMPTS)
                && a.partner == MatchingLease(old(other.View()), Nearby(a.reference.value.stamp, tolerance),
                                              MAX_ATTEMPTS)
                && (ok <==> HasPartner(other.config, old(other.View()), Nearby(a.reference.value.stamp, tolerance)))
    {
      ghost var from, elsewhere := reference.View(), other.View();
      LeadsNowhere(reference.config, from);
      LeadsNowhere(other.config, elsewhere);
      ok, a := StepFrom(from, elsewhere, calm);
      if calm && TakesFrame(old(View()), a) {
        LeasesBestMatch(other.config, elsewhere, Nearby(a.reference.value.stamp, tolerance), MAX_ATTEMPTS);
      }
      StillValid(from, elsewhere);
    }

    method StepFrom(ghost from: State, ghost elsewhere: State, ghost calm: bool) returns (ok: bool, ghost a: Answers)
      requires Apart() && reference.Since(from) && other.Since(elsewhere)
      requires lastPublished <= reference.published && TakerOk(reference.lessees, taker, last)
      requires TakerOk(from.lessees, taker, last) && LookerOk(other.lessees, looker)
      modifies this, reference.Parts(), other.Parts()
      ensures reference.Since(from) && other.Since(elsewhere) && LookerOk(other.lessees, looker)
      ensures lastPublished <= reference.published && TakerOk(reference.lessees, taker, last)
      ensures View() == Stepped(old(View()), a) && ok == (|pairs| == |old(pairs)| + 1)
      ensures ok <==> TakesFrame(old(View()), a) && a.partner.Some?
      ensures Sourced(reference.config, other.config, tolerance, retries, a)
      ensures TakesFrame(old(View()), a) ==>
                && old(reference.published) <= a.published <= reference.published
                && taker.Some? && taker.value in reference.lessees
                && reference.lessees[taker.value].want == WantOf(old(reference.lessees), old(taker))
                && looker.Some? && looker.value in other.lessees
                && other.lessees[looker.value].want == Nearby(a.reference.value.stamp, tolerance)
      ensures calm ==> a.peek == PeekOf(old(reference.View()))
      ensures calm && TakesFrame(old(View()), a) ==>
                && a.reference == LatestLease(old(reference.View()), MAX_ATTEMPTS)
                && a.partner == MatchingLease(old(other.View()), Nearby(a.reference.value.stamp, tolerance),
                                              MAX_ATTEMPTS)
    {
      hide DeviceRingBuffer.Since, DeviceRingBuffer.View, CanLease, TakerOk, Finished, LatestLease, MatchingLease;
      ghost var id: nat;
      var peek, lease;
      peek, lease, id := TakeNewest(from, calm);
      a := Answers(peek, lease, 0, 0, None);
      if peek.None? || peek == last {
        return false, a;
      }
      if lease.None? {
        missed := missed + 1;
        return false, a;
      }
      ghost var before, l := View(), reference.lessees[id];
      LeasedNow(from, id, l.want, lease.value);
      assert CanLease(reference.config, l.want, lease.value) && l.want.NextReference?;
      var published, attempt, partner;
      ghost var lookup: nat;
      ok, published, attempt, partner, lookup := PairUp(from, elsewhere, calm, id, lease.value);
      FinishedFacts(before, lease.value, published, attempt, partner);
      a := Answers(peek, lease, published, attempt, partner);
      taker, looker := Some(id), Some(lookup);
      TakerNow(reference.lessees, id, l, lease.value);
    }

    lemma LeasedNow(from: State, id: nat, want: Want, lease: Lease)
      requires reference.Since(from) && id in reference.lessees && reference.lessees[id].want == want
      requires HeldBy(reference.lessees[id].stage) == Some(lease)
      ensures CanLease(reference.config, want, lease)
    {
      LeaseIs(reference.config, reference.View(), id, want, lease);
    }

    /** Runs of both rings that have led here. */
    lemma StillValid(from: State, elsewhere: State)
      requires Apart() && reference.Since(from) && other.Since(elsewhere)
      requires lastPublished <= reference.published && TakerOk(reference.lessees, taker, last)
      requires LookerOk(other.lessees, looker)
      ensures Valid() && Leads(reference.config, from, reference.View())
    {
    }
  }

  lemma FinishedFacts(c: Consumer, lease: Lease, published: nat, attempt: nat, partner: Option<Lease>)
    ensures var d := Finished(c, lease, published, attempt, partner);
            && d.last == Some(Taken(lease.slot, lease.seqNo)) && d.lastPublished == published
            && |d.pairs| == |c.pairs| + if partner.Some? then 1 else 0
  {
  }

  lemma TakerNow(lessees: map<nat, Lessee>, id: nat, l: Lessee, lease: Lease)
    requires l.want.NextReference? && HeldBy(l.stage) == Some(lease) && id in lessees
    requires lessees[id] == l.(stage := Released(lease.slot, lease.seqNo, l.stage.snap))
    ensures TakerOk(lessees, Some(id), Some(Taken(lease.slot, lease.seqNo)))
  {
  }

  /** Some slot holds a frame a lookup can settle on. */
  ghost predicate HasPartner(c: Config, s: State, want: Want)
    requires Shape(c, s) && want.ByTimestamp?
  {
    exists i: nat :: i < c.slots && Eligible(s, want, i)
  }

  ghost predicate LookedUp(lessees: map<nat, Lessee>, id: nat, consumer: nat, want: Want, partner: Option<Lease>) {
    && id in lessees && lessees[id].consumer == consumer && lessees[id].want == want
    && HeldBy(lessees[id].stage) == partner && (partner.None? ==> lessees[id].stage.Missed?)
  }

  /** The last lookup holds nothing any more. */
  ghost predicate LookerOk(lessees: map<nat, Lessee>, looker: Option<nat>) {
    looker.Some? ==>
      looker.value in lessees && (lessees[looker.value].stage.Released? || lessees[looker.value].stage.Missed?)
  }

  ghost predicate HeldAs(lessees: map<nat, Lessee>, id: nat, consumer: nat, lease: Lease) {
    id in lessees && lessees[id].consumer == consumer && HeldBy(lessees[id].stage) == Some(lease)
  }

  ghost predicate Unmoved(s: State, t: State) {
    t.seqNo == s.seqNo && t.stamps == s.stamps
  }

  /** A pair consumer's next attempt goes on from the one that took the last frame. */
  ghost function WantOf(lessees: map<nat, Lessee>, taker: Option<nat>): Want {
    if taker.Some? && taker.value in lessees && lessees[taker.value].want.NextReference?
       && lessees[taker.value].stage.Took() then ContinueFrom(lessees[taker.value])
    else NextReference(None, 0, true)
  }

  ghost predicate TakerOk(lessees: map<nat, Lessee>, taker: Option<nat>, last: Option<Taken>) {
    && (taker.None? ==> last == None)
    && (taker.Some? ==>
          && taker.value in lessees && lessees[taker.value].want.NextReference?
          && lessees[taker.value].stage.Released?
          && last == Some(Taken(lessees[taker.value].stage.slot, lessees[taker.value].stage.seqNo)))
  }

  lemma TakerContinues(s: State, taker: Option<nat>, last: Option<Taken>)
    requires TakerOk(s.lessees, taker, last)
    ensures var want := WantOf(s.lessees, taker); want.NextReference? && want.last == last && Continues(s, want)
  {
    if taker.Some? { GoesOn(s, taker.value); }
  }

  lemma GoesOn(s: State, id: nat)
    requires id in s.lessees && s.lessees[id].want.NextReference? && s.lessees[id].stage.Released?
    ensures var l := s.lessees[id];
            var want := ContinueFrom(l);
            want.NextReference? && want.last == Some(Taken(l.stage.slot, l.stage.seqNo)) && Continues(s, want)
  {
    var want := ContinueFrom(s.lessees[id]);
    assert exists i :: i in s.lessees && s.lessees[i].want.NextReference?
                       && s.lessees[i].stage.Took() && want == ContinueFrom(s.lessees[i]);
  }

  /** A released lease stays in the records. */
  lemma {:induction false} ReleasedStays(c: Config, s: State, acts: seq<Action>, id: nat)
    requires Shape(c, s) && id in s.lessees && s.lessees[id].stage.Released?
    ensures var t := Steps(c, s, acts); id in t.lessees && t.lessees[id] == s.lessees[id]
  {
    if acts != [] {
      ReleasedStays(c, s, acts[..|acts| - 1], id);
      StepReleased(c, Steps(c, s, acts[..|acts| - 1]), acts[|acts| - 1], id);
      hide Next;
    }
  }

  lemma StepReleased(c: Config, s: State, a: Action, id: nat)
    requires Shape(c, s) && id in s.lessees && s.lessees[id].stage.Released?
    ensures var t := Next(c, s, a); id in t.lessees && t.lessees[id] == s.lessees[id]
  {
    if a.ProducerStep? { ProducerSame(c, s, a.retired); }
    else if a.LesseeStep? && a.id in s.lessees { assert LesseeInRange(c, s.lessees[a.id]); }
    hide ProducerNext;
  }

  lemma TakerStays(c: Config, s: State, t: State, taker: Option<nat>, last: Option<Taken>)
    requires Leads(c, s, t)
    ensures TakerOk(s.lessees, taker, last) ==> TakerOk(t.lessees, taker, last)
  {
    var acts :| t == Steps(c, s, acts);
    if taker.Some? && TakerOk(s.lessees, taker, last) { ReleasedStays(c, s, acts, taker.value); }
  }

  /** There is always another name for an attempt. */
  lemma UnusedId(m: map<nat, Lessee>) returns (id: nat)
    ensures id !in m
  {
    id := Above(m.Keys);
  }

  lemma {:induction false} Above(ids: set<nat>) returns (id: nat)
    ensures forall i | i in ids :: i < id
    decreases |ids|
  {
    if ids == {} {
      id := 0;
    } else {
      var i :| i in ids;
      var rest := Above(ids - {i});
      id := if i < rest then rest else i + 1;
      assert forall k | k in ids :: k == i || k in ids - {i};
    }
  }
}
