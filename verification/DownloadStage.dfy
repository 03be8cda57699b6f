/** The download stage: a pooled host slot and an event are reserved for a copy off
    the device, and the stage's thread hands a frame out once its event says the
    copy has retired. */
module DownloadStage {
  import opened Options

  datatype InFlight = InFlight(slot: nat, event: nat)

  /** The pool's free slots (a stack), the free events and the copies in flight
      (queues). `unmatched` counts frames given up for want of an event. */
  datatype Stage = Stage(free: seq<nat>, freeEvents: seq<nat>, inflight: seq<InFlight>,
                         drops: nat, unmatched: nat, enqueued: nat, published: nat)

  // ------------------------------------------------------ the critical sections

  function TookSlot(s: Stage): Stage {
    if s.free == [] then s.(drops := s.drops + 1) else s.(free := s.free[..|s.free| - 1])
  }

  function GaveSlot(s: Stage, slot: nat): Stage {
    s.(free := s.free + [slot])
  }

  function TookEvent(s: Stage): Stage {
    if s.freeEvents == [] then s.(unmatched := s.unmatched + 1) else s.(freeEvents := s.freeEvents[1..])
  }

  function Queued(s: Stage, f: InFlight): Stage {
    s.(inflight := s.inflight + [f], enqueued := s.enqueued + 1)
  }

  /** The oldest copy has retired. */
  function Published(s: Stage): Stage
    requires s.inflight != []
  {
    s.(inflight := s.inflight[1..], freeEvents := s.freeEvents + [s.inflight[0].event], published := s.published + 1)
  }

  function InFlightSlots(inflight: seq<InFlight>): seq<nat> {
    seq(|inflight|, i requires 0 <= i < |inflight| => inflight[i].slot)
  }

  function InFlightEvents(inflight: seq<InFlight>): seq<nat> {
    seq(|inflight|, i requires 0 <= i < |inflight| => inflight[i].event)
  }

  /** stop, after the join: what is in flight is dropped, its slots go back. */
  function Cleared(s: Stage): Stage {
    s.(inflight := [], free := s.free + InFlightSlots(s.inflight))
  }

  function Opened(slots: nat): Stage {
    Stage(seq(slots, i requires 0 <= i < slots => slots - 1 - i), seq(slots, i requires 0 <= i => i), [], 0, 0, 0, 0)
  }

  // ------------------------------------------------------------------ the code

  class DownloadStage {
    var free: seq<nat>
    var freeEvents: seq<nat>
    var inflight: seq<InFlight>
    var drops: nat
    var unmatched: nat
    var enqueued: nat
    var published: nat

    ghost function View(): Stage
      reads this
    {
      Stage(free, freeEvents, inflight, drops, unmatched, enqueued, published)
    }

    /** An empty pool is refused before this. */
    constructor (slots: nat)
      requires slots > 0
      ensures View() == Opened(slots)
    {
      free, freeEvents, inflight := [], [], [];
      drops, unmatched, enqueued, published := 0, 0, 0, 0;
      new;
      var i := 0;
      while i < slots
        invariant i <= slots && |free| == |freeEvents| == i && inflight == []
        invariant forall k: nat | k < i :: free[k] == slots - 1 - k && freeEvents[k] == k
        invariant drops == unmatched == enqueued == published == 0
      {
        free := free + [slots - 1 - i];
        freeEvents := freeEvents + [i];
        i := i + 1;
      }
    }

    /** HostFramePool::acquire. */
    method AcquireSlot() returns (slot: Option<nat>)
      modifies this
      ensures View() == TookSlot(old(View()))
      ensures slot == if old(free) == [] then None else Some(old(free)[|old(free)| - 1])
    {
      if free == [] {
        drops := drops + 1;
        return None;
      }
      var last := |free| - 1;
      slot := Some(free[last]);
      free := free[..last];
    }

    /** The deleter of a frame. */
    method ReleaseSlot(slot: nat)
      modifies this
      ensures View() == GaveSlot(old(View()), slot)
    {
      free := free + [slot];
    }

    method TakeEvent() returns (event: Option<nat>)
      modifies this
      ensures View() == TookEvent(old(View()))
      ensures event == if old(freeEvents) == [] then None else Some(old(freeEvents)[0])
    {
      if freeEvents == [] {
        unmatched := unmatched + 1;
        return None;
      }
      event := Some(freeEvents[0]);
      freeEvents := freeEvents[1..];
    }

    /** enqueue: false if there is no slot, or no event for it. */
    method Enqueue() returns (ok: bool)
      modifies this
      ensures ok <==> old(free) != [] && old(freeEvents) != []
      ensures View() ==
                (if old(free) == [] then TookSlot(old(View()))
                 else
                   var slot := old(free)[|old(free)| - 1];
                   if old(freeEvents) == [] then GaveSlot(TookEvent(TookSlot(old(View()))), slot)
                   else Queued(TookEvent(TookSlot(old(View()))), InFlight(slot, old(freeEvents)[0])))
    {
      var slot := AcquireSlot();
      if slot.None? {
        return false;
      }
      var event := TakeEvent();
      if event.None? {
        ReleaseSlot(slot.value);
        return false;
      }
      inflight := inflight + [InFlight(slot.value, event.value)];
      enqueued := enqueued + 1;
      return true;
    }

    /** One turn of the stage's thread; `done` answers the query of the oldest copy's
        event. */
    method Poll(done: bool) returns (ready: Option<nat>)
      modifies this
      ensures ready.Some? <==> old(inflight) != [] && done
      ensures ready.Some? ==> ready.value == old(inflight)[0].slot && View() == Published(old(View()))
      ensures ready.None? ==> View() == old(View())
    {
      if inflight == [] {
        return None;
      }
      if !done {
        return None;
      }
      var front := inflight[0];
      inflight := inflight[1..];
      freeEvents := freeEvents + [front.event];
      published := published + 1;
      return Some(front.slot);
    }

    method Clear()
      modifies this
      ensures View() == Cleared(old(View()))
    {
      free := free + InFlightSlots(inflight);
      inflight := [];
    }
  }

  // -------------------------------------------------------------------- runs

  datatype Producer =
    | Idle
    | Reserved(slot: nat)
    | Armed(slot: nat, event: nat)

  /** The frames handed out and not yet released; which copy each event was last
      recorded behind; how many copies have retired, in stream order; the events
      that were in flight when the stage was stopped; which copy was last enqueued
      into each slot; and the copies that were handed out, in that order. */
  datatype Run = Run(slots: nat, s: Stage, producer: Producer, held: multiset<nat>, copyOf: seq<nat>, retired: nat,
                     lost: multiset<nat>, copyIn: map<nat, nat>, order: seq<nat>)

  datatype Action =
    | Acquire
    | Arm
    | Copy
    | Poll
    | Release(slot: nat)
    | Retire
    | Stop

  function Start(slots: nat): Run {
    Run(slots, Opened(slots), Idle, multiset{}, seq(slots, i => 0), 0, multiset{}, map[], [])
  }

  /** The number of the oldest copy in flight. */
  function FrontCopy(s: Stage): int {
    s.enqueued - |s.inflight|
  }

  /** The copy last enqueued into a slot. */
  function CopyIn(r: Run, slot: nat): nat {
    if slot in r.copyIn then r.copyIn[slot] else 0
  }

  function Next(r: Run, a: Action): Run {
    match a
    case Acquire =>
      if !r.producer.Idle? then r
      else r.(s := TookSlot(r.s), producer := if r.s.free == [] then Idle else Reserved(r.s.free[|r.s.free| - 1]))
    case Arm =>
      if !r.producer.Reserved? then r
      else if r.s.freeEvents == [] then r.(s := GaveSlot(TookEvent(r.s), r.producer.slot), producer := Idle)
      else r.(s := TookEvent(r.s), producer := Armed(r.producer.slot, r.s.freeEvents[0]))
    case Copy =>
      // the copy and its event go into the stream; then the frame is queued
      if !r.producer.Armed? || r.producer.event >= |r.copyOf| then r
      else
        r.(s := Queued(r.s, InFlight(r.producer.slot, r.producer.event)), producer := Idle,
           copyOf := r.copyOf[r.producer.event := r.s.enqueued], copyIn := r.copyIn[r.producer.slot := r.s.enqueued])
    case Poll =>
      if r.s.inflight == [] || r.s.inflight[0].event >= |r.copyOf|
         || r.copyOf[r.s.inflight[0].event] >= r.retired then r
      else
        var slot := r.s.inflight[0].slot;
        r.(s := Published(r.s), held := r.held + multiset{slot}, order := r.order + [CopyIn(r, slot)])
    case Release(slot) =>
      if slot !in r.held then r else r.(s := GaveSlot(r.s, slot), held := r.held - multiset{slot})
    case Retire => if r.retired < r.s.enqueued then r.(retired := r.retired + 1) else r
    case Stop => r.(s := Cleared(r.s), lost := r.lost + multiset(InFlightEvents(r.s.inflight)))
  }

  function ProducerSlot(p: Producer): multiset<nat> {
    if p.Idle? then multiset{} else multiset{p.slot}
  }

  function ProducerEvent(p: Producer): multiset<nat> {
    if p.Armed? then multiset{p.event} else multiset{}
  }

  function All(n: nat): seq<nat> {
    seq(n, i requires 0 <= i => i)
  }

  /** Every slot is in exactly one place. */
  ghost predicate SlotsOk(r: Run) {
    multiset(r.s.free) + multiset(InFlightSlots(r.s.inflight)) + ProducerSlot(r.producer) + r.held
    == multiset(All(r.slots))
  }

  /** Every event is in exactly one place, or lost. */
  ghost predicate EventsOk(r: Run) {
    multiset(r.s.freeEvents) + multiset(InFlightEvents(r.s.inflight)) + ProducerEvent(r.producer) + r.lost
    == multiset(All(r.slots))
  }

  /** An event in flight still describes its own copy; nothing is published early. */
  ghost predicate CopiesOk(r: Run) {
    && |r.copyOf| == r.slots && FrontCopy(r.s) >= 0
    && (forall i: nat | i < |r.s.inflight| :: r.s.inflight[i].event < r.slots
          && r.copyOf[r.s.inflight[i].event] == FrontCopy(r.s) + i)
    && (r.lost == multiset{} ==> r.s.published == FrontCopy(r.s) <= r.retired)
  }

  /** A slot in flight holds its own copy; what was handed out is older than that
      and has retired. */
  ghost predicate OrderOk(r: Run) {
    && (forall i: nat | i < |r.s.inflight| :: CopyIn(r, r.s.inflight[i].slot) == FrontCopy(r.s) + i)
    && (forall i: nat | i < |r.order| :: r.order[i] < FrontCopy(r.s) && r.order[i] < r.retired)
    && (forall i: nat, j: nat | i < j < |r.order| :: r.order[i] < r.order[j])
    && |r.order| == r.s.published && (r.lost == multiset{} ==> forall i: nat | i < |r.order| :: r.order[i] == i)
  }

  ghost predicate Inv(r: Run) {
    SlotsOk(r) && EventsOk(r) && CopiesOk(r) && OrderOk(r) && (r.lost == multiset{} ==> r.s.unmatched == 0)
  }

  lemma PopLast(s: seq<nat>)
    requires s != []
    ensures multiset(s) == multiset(s[..|s| - 1]) + multiset{s[|s| - 1]}
  {
    assert s == s[..|s| - 1] + [s[|s| - 1]];
  }

  lemma PopFirst(s: seq<nat>)
    requires s != []
    ensures multiset(s) == multiset{s[0]} + multiset(s[1..])
  {
    assert s == [s[0]] + s[1..];
  }

  lemma PushLast(inflight: seq<InFlight>, f: InFlight)
    ensures InFlightSlots(inflight + [f]) == InFlightSlots(inflight) + [f.slot]
    ensures InFlightEvents(inflight + [f]) == InFlightEvents(inflight) + [f.event]
  {
  }

  lemma DropFirst(inflight: seq<InFlight>)
    requires inflight != []
    ensures InFlightSlots(inflight) == [inflight[0].slot] + InFlightSlots(inflight[1..])
    ensures InFlightEvents(inflight) == [inflight[0].event] + InFlightEvents(inflight[1..])
  {
  }

  /** Each of the `n` numbers once. */
  lemma {:induction false} AllOnce(n: nat, k: nat)
    ensures multiset(All(n))[k] == if k < n then 1 else 0
    ensures |multiset(All(n))| == n
  {
    if n > 0 {
      AllOnce(n - 1, k);
      assert All(n) == All(n - 1) + [n - 1];
    }
  }

  lemma {:induction false} Backwards(n: nat)
    ensures multiset(seq(n, i requires 0 <= i < n => n - 1 - i)) == multiset(All(n))
  {
    if n > 0 {
      Backwards(n - 1);
      var down := seq(n, i requires 0 <= i < n => n - 1 - i);
      assert down == [n - 1] + seq(n - 1, i requires 0 <= i < n - 1 => n - 2 - i);
      assert All(n) == All(n - 1) + [n - 1];
    }
  }

  lemma StartInv(slots: nat)
    ensures Inv(Start(slots))
  {
    Backwards(slots);
    assert Start(slots).s.freeEvents == All(slots);
  }

  /** A reserved slot has a free event waiting for it, as long as none was lost. */
  lemma EventForReserved(r: Run)
    requires SlotsOk(r) && EventsOk(r) && r.lost == multiset{} && r.producer.Reserved?
    ensures r.s.freeEvents != []
  {
    AllOnce(r.slots, 0);
    assert |multiset(r.s.free) + multiset(InFlightSlots(r.s.inflight)) + ProducerSlot(r.producer) + r.held| == r.slots;
    assert |multiset(r.s.freeEvents) + multiset(InFlightEvents(r.s.inflight)) + ProducerEvent(r.producer) + r.lost|
           == r.slots;
  }

  /** The event a copy is about to be recorded in is not in flight. */
  lemma ArmedEventIsFree(r: Run, i: nat)
    requires EventsOk(r) && r.producer.Armed? && i < |r.s.inflight|
    ensures r.producer.event < r.slots && r.s.inflight[i].event != r.producer.event
  {
    var e := r.producer.event;
    AllOnce(r.slots, e);
    var events := InFlightEvents(r.s.inflight);
    assert events[i] == r.s.inflight[i].event;
    assert (multiset(r.s.freeEvents) + multiset(events) + ProducerEvent(r.producer) + r.lost)[e] <= 1;
    assert events[i] in multiset(events);
  }

  /** The slot a copy is enqueued into is not in flight. */
  lemma ArmedSlotIsFree(r: Run, i: nat)
    requires SlotsOk(r) && !r.producer.Idle? && i < |r.s.inflight|
    ensures r.s.inflight[i].slot != r.producer.slot
  {
    var slot := r.producer.slot;
    AllOnce(r.slots, slot);
    var slots := InFlightSlots(r.s.inflight);
    assert slots[i] == r.s.inflight[i].slot;
    assert (multiset(r.s.free) + multiset(slots) + ProducerSlot(r.producer) + r.held)[slot] <= 1;
    assert slots[i] in multiset(slots);
  }

  lemma ArmedInRange(r: Run)
    requires EventsOk(r) && r.producer.Armed?
    ensures r.producer.event < r.slots
  {
    AllOnce(r.slots, r.producer.event);
    assert (multiset(r.s.freeEvents) + multiset(InFlightEvents(r.s.inflight)) + ProducerEvent(r.producer)
            + r.lost)[r.producer.event] >= 1;
  }

  // ---- four places, one element moving between two of them

  lemma FirstToThird(a: multiset<nat>, b: multiset<nat>, d: multiset<nat>, x: nat)
    ensures (a + multiset{x}) + b + multiset{} + d == a + b + multiset{x} + d
  {
  }

  lemma ThirdToSecond(a: multiset<nat>, b: multiset<nat>, d: multiset<nat>, x: nat)
    ensures a + b + multiset{x} + d == a + (b + multiset{x}) + multiset{} + d
  {
  }

  lemma SecondToFourth(a: multiset<nat>, b: multiset<nat>, c: multiset<nat>, d: multiset<nat>, x: nat)
    ensures a + (multiset{x} + b) + c + d == a + b + c + (d + multiset{x})
  {
  }

  lemma FourthToFirst(a: multiset<nat>, b: multiset<nat>, c: multiset<nat>, d: multiset<nat>, x: nat)
    requires x in d
    ensures a + b + c + d == (a + multiset{x}) + b + c + (d - multiset{x})
  {
  }

  lemma SecondToFirst(a: multiset<nat>, b: multiset<nat>, c: multiset<nat>, d: multiset<nat>, x: nat)
    ensures a + (multiset{x} + b) + c + d == (a + multiset{x}) + b + c + d
  {
  }

  lemma AcquireSlots(r: Run)
    requires SlotsOk(r) && r.producer.Idle?
    ensures SlotsOk(Next(r, Acquire))
  {
    hide All;
    var u := Next(r, Acquire);
    if r.s.free != [] {
      PopLast(r.s.free);
      FirstToThird(multiset(u.s.free), multiset(InFlightSlots(r.s.inflight)), r.held, u.producer.slot);
    }
  }

  lemma ArmSlots(r: Run)
    requires SlotsOk(r) && r.producer.Reserved?
    ensures SlotsOk(Next(r, Arm))
  {
    hide All;
    if r.s.freeEvents == [] {
      FirstToThird(multiset(r.s.free), multiset(InFlightSlots(r.s.inflight)), r.held, r.producer.slot);
    }
  }

  lemma CopySlots(r: Run)
    requires SlotsOk(r) && r.producer.Armed?
    ensures SlotsOk(Next(r, Copy))
  {
    hide All;
    PushLast(r.s.inflight, InFlight(r.producer.slot, r.producer.event));
    ThirdToSecond(multiset(r.s.free), multiset(InFlightSlots(r.s.inflight)), r.held, r.producer.slot);
  }

  lemma PollSlots(r: Run)
    requires SlotsOk(r) && r.s.inflight != []
    ensures SlotsOk(Next(r, Poll))
  {
    hide All;
    var u := Next(r, Poll);
    DropFirst(r.s.inflight);
    if u != r {
      SecondToFourth(multiset(r.s.free), multiset(InFlightSlots(u.s.inflight)), ProducerSlot(r.producer), r.held,
                     r.s.inflight[0].slot);
    }
  }

  lemma ReleaseSlots(r: Run, slot: nat)
    requires SlotsOk(r) && slot in r.held
    ensures SlotsOk(Next(r, Release(slot)))
  {
    hide All;
    FourthToFirst(multiset(r.s.free), multiset(InFlightSlots(r.s.inflight)), ProducerSlot(r.producer), r.held, slot);
  }

  lemma StopSlots(r: Run)
    requires SlotsOk(r)
    ensures SlotsOk(Next(r, Stop))
  {
    hide All;
    assert InFlightSlots([]) == [];
  }

  lemma NextSlots(r: Run, a: Action)
    requires SlotsOk(r)
    ensures SlotsOk(Next(r, a))
  {
    match a
    case Acquire => if r.producer.Idle? { AcquireSlots(r); }
    case Arm => if r.producer.Reserved? { ArmSlots(r); }
    case Copy => if r.producer.Armed? { CopySlots(r); }
    case Poll => if r.s.inflight != [] { PollSlots(r); }
    case Release(slot) => if slot in r.held { ReleaseSlots(r, slot); }
    case Retire =>
    case Stop => StopSlots(r);
    hide SlotsOk;
  }

  lemma ArmEvents(r: Run)
    requires EventsOk(r) && r.producer.Reserved?
    ensures EventsOk(Next(r, Arm))
  {
    hide All;
    var u := Next(r, Arm);
    if r.s.freeEvents != [] {
      PopFirst(r.s.freeEvents);
      FirstToThird(multiset(u.s.freeEvents), multiset(InFlightEvents(r.s.inflight)), r.lost, u.producer.event);
    }
  }

  lemma CopyEvents(r: Run)
    requires EventsOk(r) && r.producer.Armed?
    ensures EventsOk(Next(r, Copy))
  {
    hide All;
    PushLast(r.s.inflight, InFlight(r.producer.slot, r.producer.event));
    ThirdToSecond(multiset(r.s.freeEvents), multiset(InFlightEvents(r.s.inflight)), r.lost, r.producer.event);
  }

  lemma PollEvents(r: Run)
    requires EventsOk(r) && r.s.inflight != []
    ensures EventsOk(Next(r, Poll))
  {
    hide All;
    var u := Next(r, Poll);
    DropFirst(r.s.inflight);
    if u != r {
      SecondToFirst(multiset(r.s.freeEvents), multiset(InFlightEvents(u.s.inflight)), ProducerEvent(r.producer), r.lost,
                    r.s.inflight[0].event);
    }
  }

  lemma StopEvents(r: Run)
    requires EventsOk(r)
    ensures EventsOk(Next(r, Stop))
  {
    hide All;
    assert InFlightEvents([]) == [];
  }

  lemma OthersEvents(r: Run, a: Action)
    requires EventsOk(r) && (a.Acquire? || a.Release? || a.Retire?)
    ensures EventsOk(Next(r, a))
  {
    hide All, InFlightEvents;
  }

  lemma NextEvents(r: Run, a: Action)
    requires EventsOk(r)
    ensures EventsOk(Next(r, a))
  {
    match a
    case Arm => if r.producer.Reserved? { ArmEvents(r); }
    case Copy => if r.producer.Armed? { CopyEvents(r); }
    case Poll => if r.s.inflight != [] { PollEvents(r); }
    case Stop => StopEvents(r);
    case _ => OthersEvents(r, a);
    hide EventsOk;
  }

  lemma CopyCopies(r: Run)
    requires EventsOk(r) && CopiesOk(r) && r.producer.Armed?
    ensures CopiesOk(Next(r, Copy))
  {
    ArmedInRange(r);
    forall i: nat | i < |r.s.inflight| ensures r.s.inflight[i].event != r.producer.event { ArmedEventIsFree(r, i); }
    hide EventsOk, All;
  }

  lemma StopCopies(r: Run)
    requires CopiesOk(r)
    ensures CopiesOk(Next(r, Stop))
  {
    if r.s.inflight != [] {
      assert InFlightEvents(r.s.inflight)[0] in multiset(InFlightEvents(r.s.inflight));
    }
  }

  lemma PollCopies(r: Run)
    requires CopiesOk(r)
    ensures CopiesOk(Next(r, Poll))
  {
    var u := Next(r, Poll);
    if u != r {
      assert forall i: nat | i < |u.s.inflight| :: u.s.inflight[i] == r.s.inflight[i + 1];
      assert FrontCopy(u.s) == FrontCopy(r.s) + 1;
    }
  }

  lemma OthersCopies(r: Run, a: Action)
    requires CopiesOk(r) && (a.Acquire? || a.Arm? || a.Release? || a.Retire?)
    ensures CopiesOk(Next(r, a))
  {
    var u := Next(r, a);
    assert u.s.inflight == r.s.inflight && u.s.enqueued == r.s.enqueued && u.copyOf == r.copyOf;
  }

  lemma NextCopies(r: Run, a: Action)
    requires EventsOk(r) && CopiesOk(r)
    ensures CopiesOk(Next(r, a))
  {
    hide EventsOk;
    match a
    case Copy => if r.producer.Armed? { CopyCopies(r); }
    case Poll => PollCopies(r);
    case Stop => StopCopies(r);
    case _ => OthersCopies(r, a);
    hide CopiesOk;
  }

  lemma CopyOrder(r: Run)
    requires SlotsOk(r) && OrderOk(r) && r.producer.Armed?
    ensures OrderOk(Next(r, Copy))
  {
    forall i: nat | i < |r.s.inflight| ensures r.s.inflight[i].slot != r.producer.slot { ArmedSlotIsFree(r, i); }
    hide SlotsOk;
  }

  lemma PollOrder(r: Run)
    requires CopiesOk(r) && OrderOk(r)
    ensures OrderOk(Next(r, Poll))
  {
    var u := Next(r, Poll);
    if u != r {
      assert CopyIn(r, r.s.inflight[0].slot) == FrontCopy(r.s) == r.copyOf[r.s.inflight[0].event];
      assert forall i: nat | i < |u.s.inflight| :: u.s.inflight[i] == r.s.inflight[i + 1];
      assert FrontCopy(u.s) == FrontCopy(r.s) + 1;
      assert u.order == r.order + [FrontCopy(r.s)];
    }
    hide CopiesOk;
  }

  lemma OrderKept(r: Run, u: Run)
    requires OrderOk(r) && u.order == r.order && u.copyIn == r.copyIn && u.retired >= r.retired
    requires u.s.enqueued == r.s.enqueued && u.s.published == r.s.published
    requires u.s.inflight == r.s.inflight || u.s.inflight == []
    requires u.lost == multiset{} ==> r.lost == multiset{}
    ensures OrderOk(u)
  {
  }

  lemma OthersOrder(r: Run, a: Action)
    requires OrderOk(r) && !a.Copy? && !a.Poll?
    ensures OrderOk(Next(r, a))
  {
    OnlyStopLoses(r, a);
    hide OrderOk;
    var u := Next(r, a);
    assert u.order == r.order && u.copyIn == r.copyIn && u.retired >= r.retired by {
      hide TookSlot, TookEvent, GaveSlot, Cleared;
    }
    assert u.s.enqueued == r.s.enqueued && u.s.published == r.s.published by { hide InFlightEvents, InFlightSlots; }
    OrderKept(r, u);
  }

  lemma NextOrder(r: Run, a: Action)
    requires SlotsOk(r) && CopiesOk(r) && OrderOk(r)
    ensures OrderOk(Next(r, a))
  {
    match a
    case Copy => if r.producer.Armed? { CopyOrder(r); }
    case Poll => PollOrder(r);
    case _ => OthersOrder(r, a);
    hide SlotsOk, CopiesOk, OrderOk;
  }

  lemma NextMatched(r: Run, a: Action)
    requires Inv(r)
    ensures Next(r, a).lost == multiset{} ==> Next(r, a).s.unmatched == 0
  {
    if a == Arm && r.producer.Reserved? && r.lost == multiset{} { EventForReserved(r); }
    hide SlotsOk, EventsOk, CopiesOk, OrderOk;
  }

  lemma NextKeeps(r: Run, a: Action)
    requires Inv(r)
    ensures Inv(Next(r, a))
  {
    hide SlotsOk, EventsOk, CopiesOk, OrderOk, Next;
    NextSlots(r, a);
    NextEvents(r, a);
    NextCopies(r, a);
    NextOrder(r, a);
    NextMatched(r, a);
  }

  // ------------------------------------------------------------ main theorems

  ghost function Runs(slots: nat, acts: seq<Action>): (r: Run)
  {
    if acts == [] then
      Start(slots)
    else
      var before := Runs(slots, acts[..|acts| - 1]);
      Next(before, acts[|acts| - 1])
  }

  lemma {:induction false} RunsInv(slots: nat, acts: seq<Action>)
    ensures Inv(Runs(slots, acts))
  {
    hide Inv, Next;
    if acts == [] {
      StartInv(slots);
    } else {
      var before := acts[..|acts| - 1];
      RunsInv(slots, before);
      NextKeeps(Runs(slots, before), acts[|acts| - 1]);
    }
  }

  /** Until the stage is stopped with a copy in flight, a free slot implies a free
      event: no frame is given up for want of one. */
  lemma SlotImpliesEvent(slots: nat, acts: seq<Action>)
    requires forall k: nat | k < |acts| && acts[k] == Stop :: Runs(slots, acts[..k]).s.inflight == []
    ensures var r := Runs(slots, acts);
            r.s.unmatched == 0 && (r.producer.Reserved? ==> r.s.freeEvents != [])
  {
    RunsInv(slots, acts);
    LostByStops(slots, acts);
    if Runs(slots, acts).producer.Reserved? { EventForReserved(Runs(slots, acts)); }
  }

  lemma OnlyStopLoses(r: Run, a: Action)
    ensures Next(r, a).lost == multiset{} <==> r.lost == multiset{} && (a == Stop ==> r.s.inflight == [])
  {
    if a == Stop && r.s.inflight != [] {
      var events := InFlightEvents(r.s.inflight);
      assert events[0] in multiset(events);
      assert (r.lost + multiset(events))[events[0]] > 0;
    } else if a == Stop {
      assert InFlightEvents([]) == [];
    }
  }

  /** Events are lost exactly by a stop that finds copies in flight. */
  lemma {:induction false} LostByStops(slots: nat, acts: seq<Action>)
    ensures Runs(slots, acts).lost == multiset{}
       <==> forall k: nat | k < |acts| && acts[k] == Stop :: Runs(slots, acts[..k]).s.inflight == []
  {
    hide Inv, Next;
    if acts != [] {
      var before, n := acts[..|acts| - 1], |acts| - 1;
      LostByStops(slots, before);
      OnlyStopLoses(Runs(slots, before), acts[n]);
      assert forall k: nat | k < n :: before[k] == acts[k] && before[..k] == acts[..k];
    }
  }

  /** A slot being copied into is nobody else's: not free, not in flight, not held. */
  lemma CopyTargetIsExclusive(slots: nat, acts: seq<Action>)
    requires !Runs(slots, acts).producer.Idle?
    ensures var r := Runs(slots, acts);
            var slot := r.producer.slot;
            && slot < slots && slot !in r.s.free && slot !in r.held
            && forall f | f in r.s.inflight :: f.slot != slot
  {
    RunsInv(slots, acts);
    var r := Runs(slots, acts);
    SlotsStay(slots, acts);
    var slot := r.producer.slot;
    AllOnce(r.slots, slot);
    var inflight := InFlightSlots(r.s.inflight);
    var where := multiset(r.s.free) + multiset(inflight) + ProducerSlot(r.producer) + r.held;
    assert where[slot] == multiset(r.s.free)[slot] + multiset(inflight)[slot] + 1 + r.held[slot];
    assert where[slot] == multiset(All(r.slots))[slot];
    forall f | f in r.s.inflight ensures f.slot != slot {
      var i :| 0 <= i < |r.s.inflight| && r.s.inflight[i] == f;
      assert inflight[i] == f.slot;
      assert f.slot in multiset(inflight);
    }
  }

  lemma {:induction false} SlotsStay(slots: nat, acts: seq<Action>)
    ensures Runs(slots, acts).slots == slots
  {
    hide Inv;
    if acts != [] { SlotsStay(slots, acts[..|acts| - 1]); }
  }

  /** Frames are handed out in the order their copies were enqueued, each once, and
      only when the copy has retired, however often the stage is stopped; as long as
      no stop finds a copy in flight, none is left out. */
  lemma HandedOutInOrder(slots: nat, acts: seq<Action>)
    ensures var r := Runs(slots, acts);
            && |r.order| == r.s.published
            && (forall i: nat | i < |r.order| :: r.order[i] < r.retired)
            && (forall i: nat, j: nat | i < j < |r.order| :: r.order[i] < r.order[j])
    ensures (forall k: nat | k < |acts| && acts[k] == Stop :: Runs(slots, acts[..k]).s.inflight == []) ==>
              var r := Runs(slots, acts);
              |r.order| + |r.s.inflight| == r.s.enqueued && forall i: nat | i < |r.order| :: r.order[i] == i
  {
    RunsInv(slots, acts);
    LostByStops(slots, acts);
    hide Runs, SlotsOk, EventsOk;
    assert CopiesOk(Runs(slots, acts)) && OrderOk(Runs(slots, acts));
  }

  // ---- what a lost event costs

  function Rank(p: Producer): nat {
    if p.Reserved? then 2 else if p.Armed? then 1 else 0
  }

  function Unretired(r: Run): nat {
    if r.s.enqueued > r.retired then r.s.enqueued - r.retired else 0
  }

  /** Once an event is lost, the stage can be driven, without another stop, to give up
      a frame that had a slot. */
  lemma {:induction false} LossIsFelt(slots: nat, acts: seq<Action>) returns (more: seq<Action>)
    requires Runs(slots, acts).lost != multiset{}
    ensures Stop !in more && Runs(slots, acts + more).s.unmatched > Runs(slots, acts).s.unmatched
    decreases Rank(Runs(slots, acts).producer), |Runs(slots, acts).s.inflight|, Unretired(Runs(slots, acts)),
              |Runs(slots, acts).held|
  {
    RunsInv(slots, acts);
    hide Runs, Next, Inv, DrainStep, Rank, Unretired;
    var r := Runs(slots, acts);
    if r.producer.Idle? && r.s.inflight == [] && r.held == multiset{} {
      AllDrained(r);
      more := Fill(slots, acts);
    } else {
      var a := DrainStep(r);
      RunsOn(slots, acts, a);
      DrainKeeps(r, a);
      if Next(r, a).s.unmatched > r.s.unmatched {
        more := [a];
      } else {
        var rest := LossIsFelt(slots, acts + [a]);
        assert acts + ([a] + rest) == acts + [a] + rest;
        more := [a] + rest;
      }
    }
  }

  /** The next step of emptying the stage. */
  ghost function DrainStep(r: Run): Action
    requires Inv(r) && !(r.producer.Idle? && r.s.inflight == [] && r.held == multiset{})
  {
    if r.producer.Reserved? then Arm
    else if r.producer.Armed? then Copy
    else if r.s.inflight != [] then if r.copyOf[r.s.inflight[0].event] >= r.retired then Retire else Poll
    else
      var slot :| slot in r.held;
      Release(slot)
  }

  ghost predicate Drains(r: Run, u: Run) {
    && u.lost == r.lost && u.s.unmatched >= r.s.unmatched
    && (Rank(u.producer) < Rank(r.producer)
        || (u.producer == r.producer
            && (|u.s.inflight| < |r.s.inflight|
                || (u.s.inflight == r.s.inflight
                    && (Unretired(u) < Unretired(r) || (Unretired(u) == Unretired(r) && |u.held| < |r.held|))))))
  }

  lemma DrainCopies(r: Run)
    requires CopiesOk(r) && r.producer.Idle? && r.s.inflight != []
    ensures var i := r.s.inflight[0].event;
            i < |r.copyOf| && Drains(r, Next(r, if r.copyOf[i] >= r.retired then Retire else Poll))
  {
    assert r.copyOf[r.s.inflight[0].event] == FrontCopy(r.s) < r.s.enqueued;
    hide CopiesOk;
  }

  lemma DrainHeld(r: Run, slot: nat)
    requires slot in r.held
    ensures Drains(r, Next(r, Release(slot)))
  {
    assert |r.held - multiset{slot}| == |r.held| - 1;
  }

  lemma DrainKeeps(r: Run, a: Action)
    requires Inv(r) && !(r.producer.Idle? && r.s.inflight == [] && r.held == multiset{}) && a == DrainStep(r)
    ensures a != Stop && Drains(r, Next(r, a))
  {
    if r.producer.Armed? {
      ArmedInRange(r);
    } else if r.producer.Idle? && r.s.inflight != [] {
      DrainCopies(r);
      hide Drains;
    } else if r.producer.Idle? {
      DrainHeld(r, a.slot);
      hide Drains;
    }
    hide SlotsOk, EventsOk, CopiesOk, OrderOk;
  }

  lemma AllDrained(r: Run)
    requires Inv(r) && r.lost != multiset{}
    requires r.producer.Idle? && r.s.inflight == [] && r.held == multiset{}
    ensures |r.s.free| > |r.s.freeEvents|
  {
    assert InFlightSlots([]) == [] && InFlightEvents([]) == [];
    var free, events, all := multiset(r.s.free), multiset(r.s.freeEvents), multiset(All(r.slots));
    assert free + multiset{} + multiset{} + multiset{} == all && events + multiset{} + multiset{} + r.lost == all;
    assert free == free + multiset{} + multiset{} + multiset{};
    assert events + r.lost == events + multiset{} + multiset{} + r.lost;
    assert |free| == |events| + |r.lost|;
  }

  /** With more free slots than free events, enqueuing until the events run out. */
  lemma {:induction false} Fill(slots: nat, acts: seq<Action>) returns (more: seq<Action>)
    requires var r := Runs(slots, acts); r.producer.Idle? && |r.s.free| > |r.s.freeEvents|
    ensures Stop !in more && Runs(slots, acts + more).s.unmatched > Runs(slots, acts).s.unmatched
    decreases |Runs(slots, acts).s.freeEvents|
  {
    hide Inv, Runs, Next;
    var r := Runs(slots, acts);
    RunsOn(slots, acts, Acquire);
    RunsOn(slots, acts + [Acquire], Arm);
    if r.s.freeEvents == [] {
      assert acts + [Acquire, Arm] == acts + [Acquire] + [Arm];
      GivesUp(r);
      more := [Acquire, Arm];
    } else {
      var armed := acts + [Acquire] + [Arm];
      RunsOn(slots, armed, Copy);
      EnqueueTakesOne(r);
      ArmedStays(slots, armed);
      var rest := Fill(slots, armed + [Copy]);
      assert acts + ([Acquire, Arm, Copy] + rest) == armed + [Copy] + rest;
      more := [Acquire, Arm, Copy] + rest;
    }
  }

  lemma ArmedStays(slots: nat, acts: seq<Action>)
    requires Runs(slots, acts).producer.Armed?
    ensures Runs(slots, acts).producer.event < |Runs(slots, acts).copyOf|
  {
    RunsInv(slots, acts);
    ArmedInRange(Runs(slots, acts));
  }

  lemma GivesUp(r: Run)
    requires r.producer.Idle? && r.s.free != [] && r.s.freeEvents == []
    ensures Next(Next(r, Acquire), Arm).s.unmatched == r.s.unmatched + 1
  {
  }

  lemma EnqueueTakesOne(r: Run)
    requires r.producer.Idle? && r.s.free != [] && r.s.freeEvents != []
    ensures var u := Next(Next(r, Acquire), Arm);
            && u.producer.Armed? && u.s.unmatched == r.s.unmatched
            && |u.s.free| == |r.s.free| - 1 && |u.s.freeEvents| == |r.s.freeEvents| - 1
            && (u.producer.event < |u.copyOf| ==>
                  var v := Next(u, Copy);
                  && v.producer.Idle? && v.s.free == u.s.free && v.s.freeEvents == u.s.freeEvents
                  && v.s.unmatched == u.s.unmatched)
  {
  }

  lemma FirstCopy()
    ensures Next(Next(Next(Start(1), Acquire), Arm), Copy).s.inflight == [InFlight(0, 0)]
  {
    var armed := Next(Next(Start(1), Acquire), Arm);
    assert armed.producer == Armed(0, 0) && armed.s.inflight == [];
  }

  /** A stop can find a copy in flight. */
  lemma StopLosesEvents()
    ensures exists acts :: Runs(1, acts).lost != multiset{}
  {
    hide Inv;
    assert Runs(1, []) == Start(1);
    StopAfterFirst([]);
  }

  lemma StopAfterFirst(acts: seq<Action>)
    requires Runs(1, acts) == Start(1)
    ensures Runs(1, acts + [Acquire] + [Arm] + [Copy] + [Stop]).lost != multiset{}
  {
    hide Inv, Next, Start, Runs;
    RunsOn(1, acts, Acquire);
    RunsOn(1, acts + [Acquire], Arm);
    RunsOn(1, acts + [Acquire] + [Arm], Copy);
    FirstCopy();
    OnlyStopLoses(Runs(1, acts + [Acquire] + [Arm] + [Copy]), Stop);
    RunsOn(1, acts + [Acquire] + [Arm] + [Copy], Stop);
  }

  lemma RunsOn(slots: nat, acts: seq<Action>, a: Action)
    ensures Runs(slots, acts + [a]) == Next(Runs(slots, acts), a)
  {
    assert (acts + [a])[..|acts + [a]| - 1] == acts;
  }
}
