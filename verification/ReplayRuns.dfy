/** Runs of an External ingress ring fed by the replay: the player's thread, which
    fills the slots it does not hold, the upload side, which pops and releases
    slots in any order, the GPU, and anyone else asking whether a slot is
    consumed. */
module ReplayRuns {
  import opened Options
  import opened Bytes
  import opened HostIngress

  /** The player's thread: on_message, from one shared access to the next. */
  datatype Source =
    | Resting
    | Reclaiming(at: nat, pixels: Buffer, stamp: nat)         // about to ask about slot `at`
    | Copying(slot: nat, pixels: Buffer, stamp: nat, at: nat)
    | Filled(slot: nat, pixels: Buffer, stamp: nat)           // held, about to commit

  /** The upload side's hands: a slot popped, its upload enqueued; then the upload's
      event recorded; then the slot released. */
  datatype Phase = Away | Uploading | Marked

  /** `busy[s]`: an upload from slot `s` is on the GPU. `content` is the pinned
      memory, `stored` what the last frame committed to each slot was. */
  datatype Run = Run(ring: Ring, held: seq<bool>, source: Source, phase: seq<Phase>, busy: seq<bool>,
                     content: seq<Buffer>, stored: seq<Buffer>)

  datatype Action =
    | Message(pixels: Buffer, stamp: nat)
    | SourceStep(giveUp: bool)   // `giveUp`: no slot in time
    | Poll(slot: nat)            // somebody else asks
    | Pop
    | Record(slot: nat)
    | Release(slot: nat)
    | GpuDone(slot: nat)
    | Stop

  function Start(slots: nat, slotBytes: nat): Run {
    Run(Opened(External, slots, slotBytes), seq(slots, i => false), Resting, seq(slots, i => Away),
        seq(slots, i => false), seq(slots, i => Zeros(slotBytes)), seq(slots, i => []))
  }

  ghost predicate Shape(r: Run) {
    && r.ring.Shape()
    && |r.held| == |r.phase| == |r.busy| == |r.content| == |r.stored| == |r.ring.state|
    && (forall i | 0 <= i < |r.content| :: |r.content[i]| == r.ring.slotBytes)
    && match r.source
       case Resting => true
       case Reclaiming(at, pixels, _) => at <= |r.held| && |pixels| <= r.ring.slotBytes
       case Copying(slot, pixels, _, at) => slot < |r.held| && at <= |pixels| <= r.ring.slotBytes
       case Filled(slot, pixels, _) => slot < |r.held| && |pixels| <= r.ring.slotBytes
  }

  /** The first slot not held, from `i` on. */
  function FirstUnheld(held: seq<bool>, i: nat): (slot: Option<nat>)
    requires i <= |held|
    ensures slot.Some? ==> i <= slot.value < |held| && !held[slot.value]
    ensures slot.None? ==> forall k: nat | i <= k < |held| :: held[k]
    decreases |held| - i
  {
    if i == |held| then None else if !held[i] then Some(i) else FirstUnheld(held, i + 1)
  }

  ghost function Advance(r: Run, giveUp: bool): Run
    requires Shape(r)
  {
    match r.source
    case Resting => r
    case Reclaiming(at, pixels, stamp) =>
      if at < |r.held| then
        if r.held[at] then
          r.(ring := Asked(r.ring, at), held := r.held[at := !IsConsumed(r.ring, at)],
             source := Reclaiming(at + 1, pixels, stamp))
        else r.(source := Reclaiming(at + 1, pixels, stamp))
      else
        var free := FirstUnheld(r.held, 0);
        if free.Some? then r.(source := Copying(free.value, pixels, stamp, 0))
        else r.(source := if giveUp then Resting else Reclaiming(0, pixels, stamp))
    case Copying(slot, pixels, stamp, at) =>
      if at < |pixels| then
        r.(content := r.content[slot := SetByte(r.content[slot], at, pixels[at])],
           source := Copying(slot, pixels, stamp, at + 1))
      else r.(held := r.held[slot := true], source := Filled(slot, pixels, stamp))
    case Filled(slot, pixels, stamp) =>
      if r.ring.state[slot] != Idle then r.(source := Resting)   // "still in flight" is thrown
      else
        r.(ring := Queued(r.ring, slot, Frame(stamp, |pixels|)), stored := r.stored[slot := pixels],
           source := Resting)
  }

  function SetByte(b: Buffer, at: nat, v: byte): (r: Buffer)
    requires at < |b|
    ensures |r| == |b|
  {
    b[at := v]
  }

  ghost function Next(r: Run, a: Action): Run
    requires Shape(r)
  {
    match a
    case Message(pixels, stamp) =>
      // one thread; a frame larger than the first is skipped
      if !r.source.Resting? || |pixels| > r.ring.slotBytes then r
      else r.(source := Reclaiming(0, pixels, stamp))
    case SourceStep(giveUp) => Advance(r, giveUp)
    case Poll(slot) => if slot < |r.held| then r.(ring := Asked(r.ring, slot)) else r
    case Pop =>
      if !r.ring.running || r.ring.ready == [] then r
      else
        var slot := r.ring.ready[0];
        r.(ring := Popped(r.ring), phase := r.phase[slot := Uploading], busy := r.busy[slot := true])
    case Record(slot) =>
      if slot >= |r.held| || r.phase[slot] != Uploading then r
      else r.(ring := Recorded(r.ring, slot), phase := r.phase[slot := Marked])
    case Release(slot) =>
      if slot >= |r.held| || r.phase[slot] != Marked then r
      else r.(ring := Released(r.ring, slot), phase := r.phase[slot := Away])
    case GpuDone(slot) =>
      if slot >= |r.held| || r.ring.done[slot] then r
      else r.(ring := r.ring.(done := r.ring.done[slot := true]), busy := r.busy[slot := false])
    case Stop => r.(ring := r.ring.(running := false))
  }

  // ------------------------------------------------------- what every run keeps

  ghost predicate NoDuplicates(ready: seq<nat>) {
    forall i: nat, j: nat | i < j < |ready| :: ready[i] != ready[j]
  }

  /** Where slot `s` is. */
  ghost predicate SlotOk(r: Run, s: nat)
    requires Shape(r) && s < |r.held|
  {
    match r.ring.state[s]
    case Idle => s !in r.ring.ready && r.phase[s] == Away && !r.busy[s] && r.ring.done[s]
    case Committed =>
      if s in r.ring.ready then r.phase[s] == Away && !r.busy[s] && r.ring.done[s]
      else
        && r.phase[s] != Away
        && (r.phase[s] == Uploading ==> r.busy[s] && r.ring.done[s])
        && (r.phase[s] == Marked ==> (r.busy[s] <==> !r.ring.done[s]))
    case Releasing => s !in r.ring.ready && r.phase[s] == Away && (r.busy[s] <==> !r.ring.done[s])
  }

  /** A slot the replay does not hold is idle in the ring. */
  ghost predicate HeldOk(r: Run)
    requires Shape(r)
  {
    && (forall s: nat | s < |r.held| && !r.held[s] :: r.ring.state[s] == Idle)
    && (r.source.Copying? ==> !r.held[r.source.slot])
    && (r.source.Filled? ==> r.held[r.source.slot] && r.ring.state[r.source.slot] == Idle)
  }

  /** A slot's bytes are those of its frame as long as anyone may read them. */
  ghost predicate ContentOk(r: Run)
    requires Shape(r)
  {
    && (forall s: nat | s < |r.held| && r.ring.state[s] != Idle ::
          |r.stored[s]| <= r.ring.slotBytes && r.content[s][..|r.stored[s]|] == r.stored[s]
          && r.ring.frames[s].bytes == |r.stored[s]|)
    && (r.source.Copying? ==> r.content[r.source.slot][..r.source.at] == r.source.pixels[..r.source.at])
    && (r.source.Filled? ==> r.content[r.source.slot][..|r.source.pixels|] == r.source.pixels)
  }

  ghost predicate SlotsOk(r: Run)
    requires Shape(r)
  {
    NoDuplicates(r.ring.ready) && forall s: nat | s < |r.held| :: SlotOk(r, s)
  }

  ghost predicate Inv(r: Run) {
    Shape(r) && SlotsOk(r) && HeldOk(r) && ContentOk(r)
  }

  lemma StartInv(slots: nat, slotBytes: nat)
    requires slots > 0
    ensures Inv(Start(slots, slotBytes))
  {
  }

  lemma NextShape(r: Run, a: Action)
    requires Shape(r)
    ensures Shape(Next(r, a))
  {
  }

  /** Slots no thread touches in a step. */
  lemma SlotStays(r: Run, u: Run, s: nat)
    requires Shape(r) && Shape(u) && s < |r.held| == |u.held| && SlotOk(r, s)
    requires u.ring.state[s] == r.ring.state[s] && u.phase[s] == r.phase[s] && u.busy[s] == r.busy[s]
    requires u.ring.done[s] == r.ring.done[s] && (s in u.ring.ready <==> s in r.ring.ready)
    ensures SlotOk(u, s)
  {
  }

  /** The slot an action is about. */
  ghost function Touched(r: Run, a: Action): Option<nat>
    requires Shape(r)
  {
    match a
    case SourceStep(_) =>
      (match r.source
       case Reclaiming(at, _, _) => Some(at)
       case Filled(slot, _, _) => Some(slot)
       case _ => None)
    case Poll(slot) => Some(slot)
    case Pop => if r.ring.ready == [] then None else Some(r.ring.ready[0])
    case Record(slot) => Some(slot)
    case Release(slot) => Some(slot)
    case GpuDone(slot) => Some(slot)
    case _ => None
  }

  lemma OthersStay(r: Run, a: Action, s: nat)
    requires Shape(r) && Shape(Next(r, a)) && SlotsOk(r) && s < |r.held| && Touched(r, a) != Some(s)
    ensures SlotOk(Next(r, a), s)
  {
    SlotStays(r, Next(r, a), s);
  }

  lemma TouchedKeeps(r: Run, a: Action, s: nat)
    requires Shape(r) && Shape(Next(r, a)) && SlotsOk(r) && s < |r.held| && Touched(r, a) == Some(s)
    ensures SlotOk(Next(r, a), s)
  {
    assert SlotOk(r, s);
  }

  lemma NextSlots(r: Run, a: Action)
    requires Shape(r) && Shape(Next(r, a)) && SlotsOk(r)
    ensures SlotsOk(Next(r, a))
  {
    var u := Next(r, a);
    forall s: nat | s < |u.held| ensures SlotOk(u, s) {
      if Touched(r, a) == Some(s) { TouchedKeeps(r, a, s); } else { OthersStay(r, a, s); }
    }
    if r.source.Filled? { assert SlotOk(r, r.source.slot); }
  }

  /** Only a slot in the upload side's hands is released. */
  lemma ReleasedWasCommitted(r: Run, slot: nat)
    requires Shape(r) && SlotsOk(r) && slot < |r.held| && r.phase[slot] != Away
    ensures r.ring.state[slot] == Committed
  {
    assert SlotOk(r, slot);
  }

  lemma NextHeld(r: Run, a: Action)
    requires Shape(r) && SlotsOk(r) && HeldOk(r) && Shape(Next(r, a))
    ensures HeldOk(Next(r, a))
  {
    if a.Release? && a.slot < |r.held| && r.phase[a.slot] != Away { ReleasedWasCommitted(r, a.slot); }
    hide SlotsOk;
  }

  lemma CopyContent(r: Run, giveUp: bool)
    requires Shape(r) && HeldOk(r) && ContentOk(r) && r.source.Copying? && Shape(Advance(r, giveUp))
    ensures ContentOk(Advance(r, giveUp))
  {
    var slot, pixels, at := r.source.slot, r.source.pixels, r.source.at;
    var u := Advance(r, giveUp);
    if at < |pixels| {
      assert u.content[slot][..at + 1] == r.content[slot][..at] + [pixels[at]];
      assert pixels[..at + 1] == pixels[..at] + [pixels[at]];
    } else {
      assert pixels[..at] == pixels;
    }
  }

  lemma FilledContent(r: Run, giveUp: bool)
    requires Shape(r) && HeldOk(r) && ContentOk(r) && r.source.Filled? && Shape(Advance(r, giveUp))
    ensures ContentOk(Advance(r, giveUp))
  {
  }

  lemma OtherContent(r: Run, a: Action)
    requires Shape(r) && SlotsOk(r) && ContentOk(r) && Shape(Next(r, a))
    requires !(a.SourceStep? && (r.source.Copying? || r.source.Filled?))
    ensures ContentOk(Next(r, a))
  {
    if a.Release? && a.slot < |r.held| && r.phase[a.slot] != Away { ReleasedWasCommitted(r, a.slot); }
    hide SlotsOk;
    assert Next(r, a).content == r.content && Next(r, a).stored == r.stored && Next(r, a).ring.frames == r.ring.frames;
  }

  lemma NextContent(r: Run, a: Action)
    requires Shape(r) && SlotsOk(r) && HeldOk(r) && ContentOk(r) && Shape(Next(r, a))
    ensures ContentOk(Next(r, a))
  {
    if a.SourceStep? && r.source.Copying? { CopyContent(r, a.giveUp); }
    else if a.SourceStep? && r.source.Filled? { FilledContent(r, a.giveUp); }
    else { OtherContent(r, a); }
  }

  lemma NextKeeps(r: Run, a: Action)
    requires Inv(r)
    ensures Inv(Next(r, a))
  {
    hide Shape, SlotsOk, HeldOk, ContentOk, Next;
    NextShape(r, a);
    NextSlots(r, a);
    NextHeld(r, a);
    NextContent(r, a);
  }

  // ------------------------------------------------------------ main theorems

  ghost function Runs(slots: nat, slotBytes: nat, acts: seq<Action>): (r: Run)
    requires slots > 0
    ensures Shape(r)
    decreases |acts|, 0
  {
    if acts == [] then
      StartInv(slots, slotBytes);
      Start(slots, slotBytes)
    else
      var before := Runs(slots, slotBytes, acts[..|acts| - 1]);
      RunsInv(slots, slotBytes, acts[..|acts| - 1]);
      NextKeeps(before, acts[|acts| - 1]);
      Next(before, acts[|acts| - 1])
  }

  lemma {:induction false} RunsInv(slots: nat, slotBytes: nat, acts: seq<Action>)
    requires slots > 0
    ensures Inv(Runs(slots, slotBytes, acts))
    decreases |acts|, 1
  {
    hide Inv, Next;
    if acts == [] {
      StartInv(slots, slotBytes);
    } else {
      var before := acts[..|acts| - 1];
      RunsInv(slots, slotBytes, before);
      NextKeeps(Runs(slots, slotBytes, before), acts[|acts| - 1]);
    }
  }

  /** The replay's commit never finds its slot in flight, and its copy never lands in
      a slot that is queued, popped, or still being read by an upload. */
  lemma ReplayNeverOverwrites(slots: nat, slotBytes: nat, acts: seq<Action>)
    requires slots > 0
    requires var r := Runs(slots, slotBytes, acts); r.source.Copying? || r.source.Filled?
    ensures var r := Runs(slots, slotBytes, acts);
            var slot := r.source.slot;
            && slot < |r.held| && r.ring.state[slot] == Idle
            && slot !in r.ring.ready && r.phase[slot] == Away && !r.busy[slot]
  {
    RunsInv(slots, slotBytes, acts);
    var r := Runs(slots, slotBytes, acts);
    assert SlotOk(r, r.source.slot);
  }

  /** What the upload side pops, and what an upload reads until it retires, is the
      frame that was committed. */
  lemma UploadsReadTheFrame(slots: nat, slotBytes: nat, acts: seq<Action>, s: nat)
    requires slots > 0 && s < |Runs(slots, slotBytes, acts).held|
    requires var r := Runs(slots, slotBytes, acts); s in r.ring.ready || r.phase[s] != Away || r.busy[s]
    ensures var r := Runs(slots, slotBytes, acts);
            && r.ring.frames[s].bytes <= |r.content[s]|
            && r.content[s][..r.ring.frames[s].bytes] == r.stored[s]
  {
    RunsInv(slots, slotBytes, acts);
    var r := Runs(slots, slotBytes, acts);
    assert SlotOk(r, s);
  }

  /** consumed() says yes exactly for a slot with nothing left to read in it: not queued,
      not popped and on its way, and no upload from it on the GPU. */
  lemma ConsumedExactly(slots: nat, slotBytes: nat, acts: seq<Action>, s: nat)
    requires slots > 0 && s < |Runs(slots, slotBytes, acts).held|
    ensures var r := Runs(slots, slotBytes, acts);
            IsConsumed(r.ring, s) <==> s !in r.ring.ready && r.phase[s] == Away && !r.busy[s]
  {
    RunsInv(slots, slotBytes, acts);
    assert SlotOk(Runs(slots, slotBytes, acts), s);
  }

  /** consumed() is level-triggered: once it would say yes it says yes, however often
      and by whomever it is asked, until the replay commits that slot again. */
  lemma ConsumedStays(slots: nat, slotBytes: nat, acts: seq<Action>, a: Action, s: nat)
    requires slots > 0 && s < |Runs(slots, slotBytes, acts).held|
    requires var r := Runs(slots, slotBytes, acts);
             IsConsumed(r.ring, s) && !(a.SourceStep? && r.source.Filled? && r.source.slot == s)
    ensures var r := Runs(slots, slotBytes, acts);
            s < |Next(r, a).held| && IsConsumed(Next(r, a).ring, s)
  {
    RunsInv(slots, slotBytes, acts);
    ConsumedKept(Runs(slots, slotBytes, acts), a, s);
  }

  // ------------------------------------------------------- one pass of reclaim

  /** `more` does not go beyond the pass of reclaim that begins at `acts`. */
  ghost predicate OnePass(slots: nat, slotBytes: nat, acts: seq<Action>, more: seq<Action>)
    requires slots > 0
    decreases |more|
  {
    if more == [] then
      var r := Runs(slots, slotBytes, acts); r.source.Reclaiming? && r.source.at == 0
    else
      var init := more[..|more| - 1];
      var u := Runs(slots, slotBytes, acts + init);
      && OnePass(slots, slotBytes, acts, init)
      && (more[|more| - 1].SourceStep? ==> u.source.Reclaiming? && u.source.at < |u.held|)
  }

  /** `u` in the pass that began at `r`: slots not yet asked about are held as they
      were; of the others none is held that was consumed by then, and none was given
      back that is not consumed. */
  ghost predicate PassOk(r: Run, u: Run)
    requires Shape(r) && Shape(u)
  {
    && u.source.Reclaiming? && |u.held| == |r.held|
    && forall s: nat | s < |r.held| ::
         && (IsConsumed(r.ring, s) ==> IsConsumed(u.ring, s))
         && (s >= u.source.at ==> u.held[s] == r.held[s])
         && (s < u.source.at ==>
               && (u.held[s] ==> r.held[s] && !IsConsumed(r.ring, s))
               && (r.held[s] && !IsConsumed(u.ring, s) ==> u.held[s]))
  }

  /** consumed() goes on saying yes, but for a commit. */
  lemma ConsumedKept(u: Run, a: Action, s: nat)
    requires Inv(u) && s < |u.held| && IsConsumed(u.ring, s)
    requires !(a.SourceStep? && u.source.Filled? && u.source.slot == s)
    ensures Shape(Next(u, a)) && s < |Next(u, a).held| && IsConsumed(Next(u, a).ring, s)
  {
    assert SlotOk(u, s);
    NextShape(u, a);
  }

  lemma PassStep(r: Run, u: Run, a: Action)
    requires Shape(r) && Inv(u) && PassOk(r, u) && (a.SourceStep? ==> u.source.at < |u.held|)
    ensures Shape(Next(u, a)) && PassOk(r, Next(u, a))
  {
    NextShape(u, a);
    var v := Next(u, a);
    forall s: nat | s < |u.held| && IsConsumed(u.ring, s) ensures IsConsumed(v.ring, s) { ConsumedKept(u, a, s); }
    assert v.held == u.held || (a.SourceStep? && v.held == u.held[u.source.at := !IsConsumed(u.ring, u.source.at)]);
    hide Inv;
  }

  lemma PassBegins(slots: nat, slotBytes: nat, acts: seq<Action>)
    requires slots > 0 && OnePass(slots, slotBytes, acts, [])
    ensures PassOk(Runs(slots, slotBytes, acts), Runs(slots, slotBytes, acts))
  {
    hide Runs;
  }

  lemma RunsOn(slots: nat, slotBytes: nat, acts: seq<Action>, a: Action)
    requires slots > 0
    ensures Runs(slots, slotBytes, acts + [a]) == Next(Runs(slots, slotBytes, acts), a)
  {
    hide Next, Inv;
    assert (acts + [a])[..|acts + [a]| - 1] == acts;
  }

  lemma {:induction false} PassGoesOn(slots: nat, slotBytes: nat, acts: seq<Action>, more: seq<Action>)
    requires slots > 0 && OnePass(slots, slotBytes, acts, more)
    ensures PassOk(Runs(slots, slotBytes, acts), Runs(slots, slotBytes, acts + more))
    decreases |more|
  {
    hide Runs, Inv, PassOk, Next;
    if more == [] {
      PassBegins(slots, slotBytes, acts);
      assert acts + more == acts;
    } else {
      var init, a := more[..|more| - 1], more[|more| - 1];
      assert acts + more == acts + init + [a];
      RunsOn(slots, slotBytes, acts + init, a);
      PassGoesOn(slots, slotBytes, acts, init);
      RunsInv(slots, slotBytes, acts + init);
      PassStep(Runs(slots, slotBytes, acts), Runs(slots, slotBytes, acts + init), a);
    }
  }

  /** A whole pass over the slots, whatever the upload side, the GPU and others do
      meanwhile: a held slot that was consumed when the pass began is given back, and
      a slot that is not consumed when it ends is not. */
  lemma ReclaimPass(slots: nat, slotBytes: nat, acts: seq<Action>, more: seq<Action>, s: nat)
    requires slots > 0 && OnePass(slots, slotBytes, acts, more)
    requires var u := Runs(slots, slotBytes, acts + more);
             u.source.Reclaiming? && u.source.at == |u.held| && s < |u.held|
    ensures var r, u := Runs(slots, slotBytes, acts), Runs(slots, slotBytes, acts + more);
            && |r.held| == |u.held|
            && (IsConsumed(r.ring, s) ==> !u.held[s])
            && (!IsConsumed(u.ring, s) ==> u.held[s] == r.held[s])
  {
    PassGoesOn(slots, slotBytes, acts, more);
    hide Runs;
  }

  /** A message is given up for want of a slot only if, when its last pass began, every
      slot was held and none was consumed; and it finds one if any slot was free or
      consumed by then. */
  lemma GivesUpOnlyWhenFull(slots: nat, slotBytes: nat, acts: seq<Action>, more: seq<Action>)
    requires slots > 0 && OnePass(slots, slotBytes, acts, more)
    requires var u := Runs(slots, slotBytes, acts + more); u.source.Reclaiming? && u.source.at == |u.held|
    ensures var r, u := Runs(slots, slotBytes, acts), Runs(slots, slotBytes, acts + more);
            |r.held| == |u.held| &&
            match Next(u, SourceStep(true)).source
            case Resting => forall s: nat | s < |r.held| :: r.held[s] && !IsConsumed(r.ring, s)
            case Copying(slot, pixels, _, at) =>
              slot < |u.held| && !u.held[slot] && at == 0 && pixels == u.source.pixels
              && (!r.held[slot] || IsConsumed(u.ring, slot))
            case _ => false
  {
    PassGoesOn(slots, slotBytes, acts, more);
    hide Runs;
  }
}
