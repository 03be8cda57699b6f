/** The upload stage: a staged host frame is copied to a scratch slot on the device
    and transformed into an output slot, either step by step or by replaying the
    graph captured for that output slot. Device work is in one stream, so it is
    modelled as done in the order it is enqueued. */
module UploadStage {
  import opened Options
  import opened Bytes
  import opened RingArithmetic

  datatype Policy = RoundRobin | ScanForFree

  datatype Config = Config(inSlots: nat, inSlotBytes: nat, scratchSlots: nat, outSlots: nat, outSlotBytes: nat,
                           inputBytes: nat, outputBytes: nat, transforms: bool, graph: bool, policy: Policy)
  {
    /** What the constructor insists on, beside what the rings insist on. */
    predicate Legal() {
      && inSlots > 0 && outSlots >= 2
      && (transforms ==> scratchSlots > 0)
      && inputBytes > 0 && outputBytes > 0 && inSlotBytes >= inputBytes && outSlotBytes >= outputBytes
      && (!transforms ==> outputBytes == inputBytes)
      && (graph ==> transforms && policy == RoundRobin
                    && outSlots % inSlots == 0 && outSlots % scratchSlots == 0)
    }
  }

  /** A popped frame, with the pinned memory as it is then. */
  datatype Staged = Staged(slot: nat, bytes: nat, pinned: seq<Buffer>) {
    predicate Fits(c: Config) {
      && |pinned| == c.inSlots && slot < c.inSlots && bytes <= c.inSlotBytes
      && forall i | 0 <= i < |pinned| :: |pinned[i]| == c.inSlotBytes
    }

    function Data(c: Config): (data: Buffer)
      requires Fits(c)
      ensures |data| == bytes
    {
      pinned[slot][..bytes]
    }
  }

  /** The device memory, the positions in the scratch and output rings, the slots
      given back to the ingress ring, counters. */
  datatype Stage = Stage(scratch: seq<Buffer>, out: seq<Buffer>, nextScratch: nat, nextOut: nat, released: seq<nat>,
                         uploaded: nat, failed: nat, dropped: nat, fallbacks: nat)
  {
    predicate Shape(c: Config) {
      && |scratch| == (if c.transforms then c.scratchSlots else 0) && |out| == c.outSlots
      && nextOut < c.outSlots && (c.transforms ==> nextScratch < c.scratchSlots)
      && (forall i | 0 <= i < |scratch| :: |scratch[i]| == c.inputBytes)
      && (forall i | 0 <= i < |out| :: |out[i]| == c.outSlotBytes)
    }
  }

  type Transform = Buffer -> Buffer

  /** A kernel that reads a scratch slot and writes an output frame to a slot. */
  function Transformed(c: Config, t: Transform, s: Stage, scratch: nat, slot: nat): Stage
    requires c.Legal() && s.Shape(c) && scratch < |s.scratch| && slot < |s.out|
  {
    s.(out := s.out[slot := Copied(s.out[slot], 0, Resized(t(s.scratch[scratch]), c.outputBytes))])
  }

  function CopiedIn(c: Config, s: Stage, scratch: nat, data: Buffer): Stage
    requires c.Legal() && s.Shape(c) && scratch < |s.scratch| && |data| <= c.inputBytes
  {
    s.(scratch := s.scratch[scratch := Copied(s.scratch[scratch], 0, data)])
  }

  /** Copy, then transform: the eager path, and what is captured for a graph. */
  function Eagerly(c: Config, t: Transform, s: Stage, data: Buffer, scratch: nat, slot: nat): (u: Stage)
    requires c.Legal() && c.transforms && s.Shape(c) && scratch < c.scratchSlots && slot < c.outSlots
    requires |data| <= c.inputBytes
    ensures u.Shape(c)
  {
    Transformed(c, t, CopiedIn(c, s, scratch, data), scratch, slot)
  }

  /** The graph captured for an output slot, launched: it copies a whole frame from
      the pinned slot its capture baked in. */
  function Launched(c: Config, t: Transform, s: Stage, pinned: seq<Buffer>, slot: nat): (u: Stage)
    requires c.Legal() && c.graph && s.Shape(c) && slot < c.outSlots && |pinned| == c.inSlots
    requires forall i | 0 <= i < |pinned| :: |pinned[i]| == c.inSlotBytes
    ensures u.Shape(c)
  {
    Eagerly(c, t, s, pinned[slot % c.inSlots][..c.inputBytes], slot % c.scratchSlots, slot)
  }

  function GaveBack(s: Stage, slot: nat): Stage {
    s.(released := s.released + [slot])
  }

  /** The output slot a frame gets, None if there is none for it. ScanForFree's
      choice is the ring's, here `free`. */
  function Granted(c: Config, s: Stage, free: Option<nat>): (slot: Option<nat>)
    requires c.Legal() && s.Shape(c)
    ensures slot.Some? ==> slot.value < c.outSlots
  {
    if c.policy.RoundRobin? then Some(s.nextOut)
    else if free.Some? && free.value < c.outSlots then free else None
  }

  function TookOutput(c: Config, s: Stage): Stage
    requires c.Legal()
  {
    if c.policy.RoundRobin? then s.(nextOut := (s.nextOut + 1) % c.outSlots) else s
  }

  /** The captured graphs cannot take this frame. */
  predicate FallsBack(c: Config, f: Staged, slot: nat)
    requires c.inSlots > 0
  {
    f.bytes != c.inputBytes || f.slot != slot % c.inSlots
  }

  /** process on the stage without graphs. Upload only, the output slot is waited
      for under either policy. */
  function ProcessedEagerly(c: Config, t: Transform, s: Stage, f: Staged, free: Option<nat>): (u: Stage)
    requires c.Legal() && s.Shape(c) && f.Fits(c) && f.bytes <= c.inputBytes
    ensures u.Shape(c)
  {
    if !c.transforms then
      var slot := Granted(c, s, free);
      if slot.None? then s
      else
        var u := TookOutput(c, s);
        GaveBack(u.(out := u.out[slot.value := Copied(u.out[slot.value], 0, f.Data(c))], uploaded := u.uploaded + 1),
                 f.slot)
    else
      var scratch := s.nextScratch;
      var u := GaveBack(CopiedIn(c, s.(nextScratch := (scratch + 1) % c.scratchSlots), scratch, f.Data(c)), f.slot);
      var slot := Granted(c, s, free);
      if slot.None? then u.(dropped := u.dropped + 1)
      else Transformed(c, t, TookOutput(c, u), scratch, slot.value).(uploaded := u.uploaded + 1)
  }

  /** process on the stage with graphs. */
  function ProcessedByGraph(c: Config, t: Transform, s: Stage, f: Staged): (u: Stage)
    requires c.Legal() && c.graph && s.Shape(c) && f.Fits(c) && f.bytes <= c.inputBytes
    ensures u.Shape(c)
  {
    var slot := s.nextOut;
    var u := TookOutput(c, s);
    var v :=
      if FallsBack(c, f, slot) then
        Eagerly(c, t, u.(fallbacks := u.fallbacks + 1), f.Data(c), slot % c.scratchSlots, slot)
      else Launched(c, t, u, f.pinned, slot);
    GaveBack(v, f.slot).(uploaded := v.uploaded + 1)
  }

  function Processed(c: Config, t: Transform, s: Stage, f: Staged, free: Option<nat>): (u: Stage)
    requires c.Legal() && s.Shape(c) && f.Fits(c)
    ensures u.Shape(c)
  {
    if f.bytes > c.inputBytes then GaveBack(s, f.slot).(failed := s.failed + 1)   // throws; the hold gives back
    else if c.graph then ProcessedByGraph(c, t, s, f)
    else ProcessedEagerly(c, t, s, f, free)
  }

  function Fresh(c: Config): Stage {
    Stage(seq(if c.transforms then c.scratchSlots else 0, i => Zeros(c.inputBytes)),
          seq(c.outSlots, i => Zeros(c.outSlotBytes)), 0, 0, [], 0, 0, 0, 0)
  }

  // ------------------------------------------------------------------ the code

  /** A captured graph: the pinned and the scratch slot it bakes in. */
  datatype Graph = Graph(pinned: nat, scratch: nat)

  class Uploader {
    const config: Config
    const transform: Transform
    var scratch: seq<Buffer>
    var out: seq<Buffer>
    var nextScratch: nat
    var nextOut: nat            // the output ring's next slot, under RoundRobin
    var graphs: seq<Graph>
    var released: seq<nat>      // slots given back to the ingress ring
    var uploaded: nat
    var failed: nat
    var dropped: nat
    var fallbacks: nat

    ghost function View(): Stage
      reads this
    {
      Stage(scratch, out, nextScratch, nextOut, released, uploaded, failed, dropped, fallbacks)
    }

    ghost predicate Valid()
      reads this
    {
      && config.Legal() && View().Shape(config) && (config.graph <==> graphs != [])
      && (config.graph ==> Captured(config, graphs))
    }

    /** Configurations that are not legal are refused before this. */
    constructor (config: Config, transform: Transform)
      requires config.Legal()
      ensures Valid() && this.config == config && this.transform == transform && View() == Fresh(config)
    {
      this.config, this.transform := config, transform;
      scratch := seq(if config.transforms then config.scratchSlots else 0, i => Zeros(config.inputBytes));
      out := seq(config.outSlots, i => Zeros(config.outSlotBytes));
      nextScratch, nextOut, graphs, released := 0, 0, [], [];
      uploaded, failed, dropped, fallbacks := 0, 0, 0, 0;
      new;
      if config.graph { CaptureGraphs(); }
    }

    /** One graph per output slot. */
    method CaptureGraphs()
      requires config.Legal() && config.graph
      modifies this`graphs
      ensures Captured(config, graphs)
    {
      graphs := [];
      var slot := 0;
      while slot < config.outSlots
        invariant slot <= config.outSlots && |graphs| == slot
        invariant forall i: nat | i < slot :: graphs[i] == Graph(i % config.inSlots, i % config.scratchSlots)
      {
        graphs := graphs + [Graph(slot % config.inSlots, slot % config.scratchSlots)];
        slot := slot + 1;
      }
    }

    /** The host-to-device copy; the pinned slot has no other reader and goes back. */
    method CopyAndRelease(f: Staged, into: nat)
      requires Valid() && config.transforms && f.Fits(config) && f.bytes <= config.inputBytes
      requires into < config.scratchSlots
      modifies this`scratch, this`released
      ensures Valid() && View() == GaveBack(CopiedIn(config, old(View()), into, f.Data(config)), f.slot)
    {
      scratch := scratch[into := Copied(scratch[into], 0, f.pinned[f.slot][..f.bytes])];
      released := released + [f.slot];
    }

    method RunTransform(from: nat, slot: nat)
      requires Valid() && config.transforms && from < config.scratchSlots && slot < config.outSlots
      modifies this`out
      ensures Valid() && View() == Transformed(config, transform, old(View()), from, slot)
    {
      out := out[slot := Copied(out[slot], 0, Resized(transform(scratch[from]), config.outputBytes))];
    }

    /** Copy, give the pinned slot back, transform. */
    method EnqueueEager(f: Staged, into: nat, slot: nat)
      requires Valid() && config.transforms && f.Fits(config) && f.bytes <= config.inputBytes
      requires into < config.scratchSlots && slot < config.outSlots
      modifies this`scratch, this`out, this`released
      ensures Valid()
      ensures View() == GaveBack(Eagerly(config, transform, old(View()), f.Data(config), into, slot), f.slot)
    {
      CopyAndRelease(f, into);
      RunTransform(into, slot);
    }

    method LaunchGraph(f: Staged, slot: nat)
      requires Valid() && config.graph && f.Fits(config) && slot < config.outSlots
      modifies this`scratch, this`out
      ensures Valid() && View() == Launched(config, transform, old(View()), f.pinned, slot)
    {
      var g := graphs[slot];
      scratch := scratch[g.scratch := Copied(scratch[g.scratch], 0, f.pinned[g.pinned][..config.inputBytes])];
      out := out[slot := Copied(out[slot], 0, Resized(transform(scratch[g.scratch]), config.outputBytes))];
    }

    /** The output ring's slot: acquire_write under RoundRobin, else what the ring
        finds free. */
    method AcquireOutput(free: Option<nat>) returns (slot: Option<nat>)
      requires Valid()
      modifies this`nextOut
      ensures Valid() && slot == Granted(config, old(View()), free)
      ensures View() == if slot.Some? then TookOutput(config, old(View())) else old(View())
    {
      if config.policy.RoundRobin? {
        slot := Some(nextOut);
        nextOut := (nextOut + 1) % config.outSlots;
      } else {
        slot := if free.Some? && free.value < config.outSlots then free else None;
      }
    }

    /** The frame is pushed through scratch step by step. */
    method ProcessEager(f: Staged, free: Option<nat>)
      requires Valid() && config.transforms && f.Fits(config) && f.bytes <= config.inputBytes
      modifies this
      ensures Valid() && View() == ProcessedEagerly(config, transform, old(View()), f, free)
    {
      hide Copied, Resized, Transformed;
      var into := nextScratch;
      nextScratch := (nextScratch + 1) % config.scratchSlots;
      CopyAndRelease(f, into);
      var slot := AcquireOutput(free);
      if slot.None? {
        dropped := dropped + 1;
        return;
      }
      RunTransform(into, slot.value);
      uploaded := uploaded + 1;
    }

    /** Upload only. */
    method ProcessDirect(f: Staged, free: Option<nat>)
      requires Valid() && !config.transforms && f.Fits(config) && f.bytes <= config.inputBytes
      modifies this
      ensures Valid() && View() == ProcessedEagerly(config, transform, old(View()), f, free)
    {
      hide Copied, Resized;
      var slot := AcquireOutput(free);
      if slot.Some? {
        out := out[slot.value := Copied(out[slot.value], 0, f.pinned[f.slot][..f.bytes])];
        released := released + [f.slot];
        uploaded := uploaded + 1;
      }
    }

    method ProcessGraph(f: Staged)
      requires Valid() && config.graph && f.Fits(config) && f.bytes <= config.inputBytes
      modifies this
      ensures Valid() && View() == ProcessedByGraph(config, transform, old(View()), f)
    {
      hide Copied, Resized, Eagerly, Launched;
      var slot := AcquireOutput(None);
      if f.bytes != config.inputBytes || f.slot != slot.value % config.inSlots {
        fallbacks := fallbacks + 1;
        EnqueueEager(f, slot.value % config.scratchSlots, slot.value);
      } else {
        LaunchGraph(f, slot.value);
        released := released + [f.slot];
      }
      uploaded := uploaded + 1;
    }

    /** process: false if the frame was refused. */
    method Process(f: Staged, free: Option<nat>) returns (ok: bool)
      requires Valid() && f.Fits(config)
      modifies this
      ensures Valid() && ok == (f.bytes <= config.inputBytes)
      ensures View() == Processed(config, transform, old(View()), f, free)
    {
      hide ProcessedEagerly, ProcessedByGraph;
      if f.bytes > config.inputBytes {
        failed := failed + 1;
        released := released + [f.slot];
        return false;
      }
      if !config.transforms { ProcessDirect(f, free); }
      else if graphs == [] { ProcessEager(f, free); }
      else { ProcessGraph(f); }
      return true;
    }
  }

  ghost predicate Captured(c: Config, graphs: seq<Graph>) {
    && c.inSlots > 0 && c.scratchSlots > 0 && |graphs| == c.outSlots
    && forall i: nat | i < |graphs| :: graphs[i] == Graph(i % c.inSlots, i % c.scratchSlots)
  }

  // --------------------------------------------------------------- the theorems

  /** One frame: a graph that is launched leaves the device exactly as copying and
      transforming would have. */
  lemma GraphIsEager(c: Config, t: Transform, s: Stage, f: Staged)
    requires c.Legal() && c.graph && s.Shape(c) && f.Fits(c) && f.bytes <= c.inputBytes
    requires !FallsBack(c, f, s.nextOut)
    ensures var u := TookOutput(c, s);
            Launched(c, t, u, f.pinned, s.nextOut)
            == Eagerly(c, t, u, f.Data(c), s.nextOut % c.scratchSlots, s.nextOut)
  {
  }

  /** The same stage without graphs. */
  function WithoutGraph(c: Config): Config {
    c.(graph := false)
  }

  /** One turn of the stage: a popped frame, and the output slot that ScanForFree
      finds for it. */
  datatype Turn = Turn(staged: Staged, free: Option<nat>)

  predicate AllFit(c: Config, turns: seq<Turn>) {
    forall i | 0 <= i < |turns| :: turns[i].staged.Fits(c)
  }

  function Run(c: Config, t: Transform, turns: seq<Turn>): (s: Stage)
    requires c.Legal() && AllFit(c, turns)
    ensures s.Shape(c)
  {
    if turns == [] then Fresh(c)
    else Processed(c, t, Run(c, t, turns[..|turns| - 1]), turns[|turns| - 1].staged, turns[|turns| - 1].free)
  }

  /** Positions in the rings follow the frames uploaded. */
  ghost predicate InStep(c: Config, s: Stage, count: nat)
    requires c.Legal() && c.transforms
  {
    && s.nextOut == s.uploaded % c.outSlots && s.uploaded + s.failed == count && s.dropped == 0
    && (!c.graph ==> s.nextScratch == s.uploaded % c.scratchSlots)
  }

  lemma {:induction false} StaysInStep(c: Config, t: Transform, turns: seq<Turn>)
    requires c.Legal() && c.transforms && c.policy == RoundRobin
    requires AllFit(c, turns)
    ensures InStep(c, Run(c, t, turns), |turns|)
  {
    if turns != [] {
      var before := turns[..|turns| - 1];
      var s := Run(c, t, before);
      StaysInStep(c, t, before);
      StepInStep(c, t, s, turns[|turns| - 1].staged, turns[|turns| - 1].free, |before|);
    }
  }

  lemma StepInStep(c: Config, t: Transform, s: Stage, f: Staged, free: Option<nat>, count: nat)
    requires c.Legal() && c.transforms && c.policy == RoundRobin && s.Shape(c) && f.Fits(c) && InStep(c, s, count)
    ensures InStep(c, Processed(c, t, s, f, free), count + 1)
  {
    hide Copied, Resized;
    RingStep(s.uploaded, c.outSlots);
    RingStep(s.uploaded, c.scratchSlots);
  }

  /** The same device contents. */
  ghost predicate SameMemory(s: Stage, u: Stage) {
    s.scratch == u.scratch && s.out == u.out && s.nextOut == u.nextOut
    && s.uploaded == u.uploaded && s.failed == u.failed && s.released == u.released
  }

  lemma StepsAlike(c: Config, t: Transform, s: Stage, u: Stage, f: Staged, free: Option<nat>)
    requires c.Legal() && c.graph && s.Shape(c) && u.Shape(WithoutGraph(c)) && f.Fits(c)
    requires SameMemory(s, u) && u.nextScratch == s.nextOut % c.scratchSlots
    ensures SameMemory(Processed(c, t, s, f, free), Processed(WithoutGraph(c), t, u, f, free))
  {
    if f.bytes <= c.inputBytes && !FallsBack(c, f, s.nextOut) { GraphIsEager(c, t, s, f); }
  }

  /** Whole runs: whatever is staged, of whatever size and in whatever slots, the
      stage with graphs leaves the device as the stage without them. */
  lemma {:induction false} GraphRefinesEager(c: Config, t: Transform, turns: seq<Turn>)
    requires c.Legal() && c.graph && AllFit(c, turns)
    ensures SameMemory(Run(c, t, turns), Run(WithoutGraph(c), t, turns))
  {
    if turns != [] {
      var before := turns[..|turns| - 1];
      GraphRefinesEager(c, t, before);
      StaysInStep(c, t, before);
      StaysInStep(WithoutGraph(c), t, before);
      ModOfMod(Run(c, t, before).uploaded, c.outSlots, c.scratchSlots);
      StepsAlike(c, t, Run(c, t, before), Run(WithoutGraph(c), t, before),
                 turns[|turns| - 1].staged, turns[|turns| - 1].free);
    }
  }

  /** Lockstep: fed by a Staged ring, which hands out its slots in turn, a frame
      falls back exactly if it is short or the frames refused so far are not a
      whole number of rounds of the ingress ring. In particular no frame falls
      back while all frames are full and none was refused. */
  lemma FallsBackExactly(c: Config, t: Transform, turns: seq<Turn>, f: Staged, free: Option<nat>)
    requires c.Legal() && c.graph && AllFit(c, turns)
    requires f.Fits(c) && f.bytes <= c.inputBytes && f.slot == |turns| % c.inSlots
    ensures var s := Run(c, t, turns);
            Processed(c, t, s, f, free).fallbacks == s.fallbacks + 1
            <==> f.bytes < c.inputBytes || s.failed % c.inSlots != 0
  {
    var s := Run(c, t, turns);
    StaysInStep(c, t, turns);
    ModOfMod(s.uploaded, c.outSlots, c.inSlots);
    SamePosition(s.uploaded, s.failed, c.inSlots);
  }

  /** The output slot of a frame, under RoundRobin the next one in turn. */
  function OutputFor(c: Config, s: Stage, free: Option<nat>): Option<nat> {
    if c.policy.RoundRobin? then Some(s.nextOut) else free
  }

  /** The scratch slot a frame goes through: with graphs the one its output slot has. */
  function ScratchFor(c: Config, s: Stage, slot: nat): nat
    requires c.Legal() && c.transforms
  {
    if c.graph then slot % c.scratchSlots else s.nextScratch
  }

  /** `out` holds the transform of the frame, or the frame itself if there is none. A
      short frame is transformed with what the scratch slot held behind it. */
  ghost predicate Holds(c: Config, t: Transform, s: Stage, f: Staged, slot: nat, out: Buffer)
    requires c.Legal() && s.Shape(c) && f.Fits(c) && f.bytes <= c.inputBytes
  {
    var data := f.pinned[f.slot][..f.bytes];
    && |out| == c.outSlotBytes
    && if !c.transforms then out[..f.bytes] == data
       else
         var k := ScratchFor(c, s, slot);
         k < |s.scratch| && var whole := data + s.scratch[k][f.bytes..];
                            |t(whole)| == c.outputBytes ==> out[..c.outputBytes] == t(whole)
  }

  /** What an upload is for: after any run the frame's output slot holds its transform
      and no other output slot is touched; without an output slot it is dropped. */
  lemma UploadedIsTransformed(c: Config, t: Transform, turns: seq<Turn>, f: Staged, free: Option<nat>)
    requires c.Legal() && AllFit(c, turns) && f.Fits(c) && f.bytes <= c.inputBytes
    requires free.Some? ==> free.value < c.outSlots
    ensures var s := Run(c, t, turns);
            var u, slot := Processed(c, t, s, f, free), OutputFor(c, s, free);
            if slot.None? then
              u.out == s.out && u.uploaded == s.uploaded && (c.transforms ==> u.dropped == s.dropped + 1)
            else
              && slot.value < c.outSlots && u.uploaded == s.uploaded + 1 && u.dropped == s.dropped
              && u.out == s.out[slot.value := u.out[slot.value]] && Holds(c, t, s, f, slot.value, u.out[slot.value])
  {
    var s := Run(c, t, turns);
    hide Run, Holds;
    var slot := OutputFor(c, s, free);
    if slot.Some? {
      var v := if c.policy.RoundRobin? then s.(nextOut := (s.nextOut + 1) % c.outSlots) else s;
      if !c.transforms {
        DirectHolds(c, t, s, f, slot.value);
      } else {
        EagerHolds(c, t, s, f, slot.value);
        if c.graph && !FallsBack(c, f, s.nextOut) { GraphIsEager(c, t, s, f); }
      }
    }
    hide Copied, Resized;
  }

  lemma DirectHolds(c: Config, t: Transform, s: Stage, f: Staged, slot: nat)
    requires c.Legal() && !c.transforms && s.Shape(c) && f.Fits(c) && f.bytes <= c.inputBytes && slot < c.outSlots
    ensures Holds(c, t, s, f, slot, Copied(s.out[slot], 0, f.Data(c)))
  {
  }

  lemma EagerHolds(c: Config, t: Transform, s: Stage, f: Staged, slot: nat)
    requires c.Legal() && c.transforms && s.Shape(c) && f.Fits(c) && f.bytes <= c.inputBytes && slot < c.outSlots
    ensures var k := ScratchFor(c, s, slot);
            && k < |s.scratch|
            && var made := t(Copied(s.scratch[k], 0, f.Data(c)));
               Holds(c, t, s, f, slot, Copied(s.out[slot], 0, Resized(made, c.outputBytes)))
  {
    var k := ScratchFor(c, s, slot);
    assert Copied(s.scratch[k], 0, f.Data(c)) == f.Data(c) + s.scratch[k][f.bytes..];
  }

  /** The frame gets an output slot, or the stage drops it. (Upload only, it waits
      for one.) */
  predicate Answered(c: Config, free: Option<nat>) {
    c.transforms || c.policy.RoundRobin? || (free.Some? && free.value < c.outSlots)
  }

  /** Every popped frame's slot goes back to the ingress ring exactly once, in
      order, whichever way the frame went. */
  lemma {:induction false} SlotsGoBackOnce(c: Config, t: Transform, turns: seq<Turn>)
    requires c.Legal() && AllFit(c, turns) && forall i | 0 <= i < |turns| :: Answered(c, turns[i].free)
    ensures var s := Run(c, t, turns);
            |s.released| == |turns| && forall i | 0 <= i < |turns| :: s.released[i] == turns[i].staged.slot
  {
    if turns != [] {
      var before := turns[..|turns| - 1];
      SlotsGoBackOnce(c, t, before);
      GivesBack(c, t, Run(c, t, before), turns[|turns| - 1].staged, turns[|turns| - 1].free);
      hide Processed;
    }
  }

  lemma GivesBack(c: Config, t: Transform, s: Stage, f: Staged, free: Option<nat>)
    requires c.Legal() && s.Shape(c) && f.Fits(c) && Answered(c, free)
    ensures Processed(c, t, s, f, free).released == s.released + [f.slot]
  {
    hide Copied, Resized;
  }
}
