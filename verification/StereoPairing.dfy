/** The live stereo pairer: two camera threads push frames, one consumer pops
    pairs and singles. For any interleaving of the calls the output is the
    offline merge of the two streams, as far as the merge has got, until a frame
    is dropped or given up on too early; and every frame leaves exactly once. */
module StereoPairing {
  import opened Options
  import opened Bytes
  import opened FramePairing

  datatype Settings = Settings(tolerance: nat, queueFrames: nat, hold: nat)

  datatype Entry = Entry(stamp: Stamp, received: nat, frameId: nat, data: Buffer, arrived: int)

  const BLANK: Entry := Entry(0, 0, 0, [], 0)

  /** One stream's queue, free buffers, the frame last handed out, counters. */
  datatype Side = Side(queue: seq<Entry>, recycled: seq<Buffer>, held: Entry, overrun: nat, unpaired: nat)

  datatype Pairer = Pairer(side0: Side, side1: Side, nextPairId: nat, paired: nat, maxAbsSkew: nat)

  /** What try_pop hands out: `have[s]` is whether frame `s` is there. */
  datatype Pair = Pair(pairId: nat, frame0: Option<Entry>, frame1: Option<Entry>, skew: int)

  // ------------------------------------------------------------ specification

  /** One stream after a push: full, it gives its oldest frame up. */
  function Pushed(c: Settings, s: Side, e: Entry): Side
    requires c.queueFrames > 0
  {
    var full := |s.queue| >= c.queueFrames;
    var queue := if full then s.queue[1..] else s.queue;
    var free := if full then s.recycled + [s.queue[0].data] else s.recycled;
    Side(queue + [e], if free == [] then free else free[..|free| - 1], s.held,
         if full then s.overrun + 1 else s.overrun, s.unpaired)
  }

  /** One stream after hold_entry takes its oldest frame. */
  function Taken(s: Side): Side
    requires s.queue != []
  {
    s.(queue := s.queue[1..], held := s.queue[0],
       recycled := if s.held.data == [] then s.recycled else s.recycled + [s.held.data])
  }

  /** What try_pop does with the two heads, known as frames `i` and `j`. */
  function Choice(c: Settings, p: Pairer, now: int, i: nat, j: nat): Option<Disposition> {
    var a, b := p.side0.queue, p.side1.queue;
    if a != [] && b != [] then Some(Decide(a[0].stamp, b[0].stamp, c.tolerance, i, j))
    else if a != [] && now - a[0].arrived >= c.hold then Some(Alone0(i))
    else if b != [] && now - b[0].arrived >= c.hold then Some(Alone1(j))
    else None
  }

  predicate CanTake(p: Pairer, d: Disposition) {
    (!d.Alone1? ==> p.side0.queue != []) && (!d.Alone0? ==> p.side1.queue != [])
  }

  function Alone(s: Side): Side
    requires s.queue != []
  {
    Taken(s).(unpaired := s.unpaired + 1)
  }

  function Larger(x: nat, y: nat): nat {
    if y > x then y else x
  }

  function Skew(p: Pairer): int
    requires p.side0.queue != [] && p.side1.queue != []
  {
    Difference(p.side1.queue[0].stamp, p.side0.queue[0].stamp)
  }

  function Popped(p: Pairer, d: Disposition): Pairer
    requires CanTake(p, d)
  {
    match d
    case Together(_, _) =>
      Pairer(Taken(p.side0), Taken(p.side1), p.nextPairId + 1, p.paired + 1, Larger(p.maxAbsSkew, Abs(Skew(p))))
    case Alone0(_) => p.(side0 := Alone(p.side0), nextPairId := p.nextPairId + 1)
    case Alone1(_) => p.(side1 := Alone(p.side1), nextPairId := p.nextPairId + 1)
  }

  function Output(p: Pairer, d: Disposition): Pair
    requires CanTake(p, d)
  {
    match d
    case Together(_, _) => Pair(p.nextPairId, Some(p.side0.queue[0]), Some(p.side1.queue[0]), Skew(p))
    case Alone0(_) => Pair(p.nextPairId, Some(p.side0.queue[0]), None, 0)
    case Alone1(_) => Pair(p.nextPairId, None, Some(p.side1.queue[0]), 0)
  }

  // --------------------------------------------------------- what a pop promises

  /** A frame waits for its partner until it is `hold` old: with frames of both streams
      there is always a result, with frames of one only once the oldest is, with none
      never. */
  ghost predicate PopsNow(c: Settings, a: seq<Entry>, b: seq<Entry>, now: int) {
    if a != [] && b != [] then true
    else if a != [] then now - a[0].arrived >= c.hold
    else if b != [] then now - b[0].arrived >= c.hold
    else false
  }

  /** What comes out: both heads if their stamps are within the tolerance, else the
      earlier one, or the only one. */
  ghost predicate RightResult(c: Settings, a: seq<Entry>, b: seq<Entry>, p: Pair) {
    if a != [] && b != [] && a[0].stamp <= b[0].stamp + c.tolerance && b[0].stamp <= a[0].stamp + c.tolerance then
      p.frame0 == Some(a[0]) && p.frame1 == Some(b[0]) && p.skew == b[0].stamp - a[0].stamp
    else if a != [] && (b == [] || a[0].stamp < b[0].stamp) then
      p.frame0 == Some(a[0]) && p.frame1 == None && p.skew == 0
    else
      b != [] && p.frame0 == None && p.frame1 == Some(b[0]) && p.skew == 0
  }

  lemma ChoiceIsRight(c: Settings, p: Pairer, now: int, i: nat, j: nat)
    ensures Choice(c, p, now, i, j).Some? <==> PopsNow(c, p.side0.queue, p.side1.queue, now)
    ensures var d := Choice(c, p, now, i, j);
            d.Some? ==>
              && CanTake(p, d.value) && RightResult(c, p.side0.queue, p.side1.queue, Output(p, d.value))
              && Output(p, d.value).pairId == p.nextPairId
              && Popped(p, d.value).side0.queue == Left(p.side0.queue, Output(p, d.value).frame0)
              && Popped(p, d.value).side1.queue == Left(p.side1.queue, Output(p, d.value).frame1)
  {
  }

  /** A queue whose head has been handed out or not. */
  function Left(queue: seq<Entry>, out: Option<Entry>): seq<Entry> {
    if out.Some? && queue != [] then queue[1..] else queue
  }

  // ------------------------------------------------------------------ the code

  datatype PushOutcome = BadStream | Kept | DroppedOldest

  class StereoPairer {
    const settings: Settings
    const queue: array<seq<Entry>>
    const recycled: array<seq<Buffer>>
    const held: array<Entry>
    const overrun: array<nat>
    const unpaired: array<nat>
    var nextPairId: nat
    var paired: nat
    var maxAbsSkew: nat

    ghost predicate Valid()
      reads this
    {
      && settings.queueFrames > 0 && overrun != unpaired
      && queue.Length == recycled.Length == held.Length == overrun.Length == unpaired.Length == 2
    }

    ghost function SideOf(stream: nat): Side
      requires Valid() && stream < 2
      reads this, queue, recycled, held, overrun, unpaired
    {
      Side(queue[stream], recycled[stream], held[stream], overrun[stream], unpaired[stream])
    }

    ghost function View(): Pairer
      requires Valid()
      reads this, queue, recycled, held, overrun, unpaired
    {
      Pairer(SideOf(0), SideOf(1), nextPairId, paired, maxAbsSkew)
    }

    /** A configuration without room for a frame is refused before this. */
    constructor (settings: Settings)
      requires settings.queueFrames > 0
      ensures Valid() && this.settings == settings && View() == Fresh()
      ensures fresh(queue) && fresh(recycled) && fresh(held) && fresh(overrun) && fresh(unpaired)
    {
      this.settings := settings;
      queue := new seq<Entry>[2](i => []);
      recycled := new seq<Buffer>[2](i => []);
      held := new Entry[2](i => BLANK);
      overrun := new nat[2](i => 0);
      unpaired := new nat[2](i => 0);
      nextPairId, paired, maxAbsSkew := 0, 0, 0;
    }

    method Push(stream: nat, stamp: Stamp, received: nat, frameId: nat, data: Buffer, arrived: int)
      returns (outcome: PushOutcome)
      requires Valid()
      modifies this, queue, recycled, held, overrun, unpaired
      ensures Valid()
      ensures outcome.BadStream? <==> stream > 1
      ensures outcome == DroppedOldest <==> stream <= 1 && old(|queue[stream]|) >= settings.queueFrames
      ensures var e := Entry(stamp, received, frameId, data, arrived);
              View() == if stream == 0 then old(View()).(side0 := Pushed(settings, old(SideOf(0)), e))
                        else if stream == 1 then old(View()).(side1 := Pushed(settings, old(SideOf(1)), e))
                        else old(View())
      ensures stream <= 1 ==>
                var was := old(queue[stream]);
                var kept := if |was| >= settings.queueFrames then was[1..] else was;
                queue[stream] == kept + [Entry(stamp, received, frameId, data, arrived)]
                && queue[1 - stream] == old(queue[1 - stream])
    {
      if stream > 1 {
        return BadStream;
      }
      outcome := Kept;
      if |queue[stream]| >= settings.queueFrames {
        recycled[stream] := recycled[stream] + [queue[stream][0].data];
        queue[stream] := queue[stream][1..];
        overrun[stream] := overrun[stream] + 1;
        outcome := DroppedOldest;
      }
      var buffer := Reuse(stream);
      buffer := Copied(Resized(buffer, |data|), 0, data);
      assert buffer == data;
      queue[stream] := queue[stream] + [Entry(stamp, received, frameId, buffer, arrived)];
    }

    /** A free buffer of this stream, or a new one. */
    method Reuse(stream: nat) returns (buffer: Buffer)
      requires Valid() && stream < 2
      modifies recycled
      ensures recycled[1 - stream] == old(recycled[1 - stream])
      ensures var free := old(recycled[stream]);
              recycled[stream] == if free == [] then free else free[..|free| - 1]
    {
      buffer := [];
      if recycled[stream] != [] {
        var last := |recycled[stream]| - 1;
        buffer := recycled[stream][last];
        recycled[stream] := recycled[stream][..last];
      }
    }

    /** Moves the oldest frame from its queue into the held slot; the buffer held
        until now is free again. */
    method HoldEntry(stream: nat) returns (entry: Entry)
      requires Valid() && stream < 2 && queue[stream] != []
      modifies queue, recycled, held
      ensures Valid() && entry == old(queue[stream][0])
      ensures SideOf(stream) == Taken(old(SideOf(stream)))
      ensures SideOf(1 - stream) == old(SideOf(1 - stream))
    {
      entry := queue[stream][0];
      queue[stream] := queue[stream][1..];
      if held[stream].data != [] {
        recycled[stream] := recycled[stream] + [held[stream].data];
      }
      held[stream] := entry;
    }

    /** The oldest frame of one stream leaves on its own. */
    method EmitAlone(stream: nat) returns (out: Pair)
      requires Valid() && stream < 2 && queue[stream] != []
      modifies this, queue, recycled, held, unpaired
      ensures Valid()
      ensures var d := if stream == 0 then Alone0(0) else Alone1(0);
              out == Output(old(View()), d) && View() == Popped(old(View()), d)
    {
      var id := nextPairId;
      nextPairId := nextPairId + 1;
      var entry := HoldEntry(stream);
      out := if stream == 0 then Pair(id, Some(entry), None, 0) else Pair(id, None, Some(entry), 0);
      unpaired[stream] := unpaired[stream] + 1;
    }

    /** The oldest frames of both streams leave as a pair. */
    method EmitPair(d: int) returns (out: Pair)
      requires Valid() && queue[0] != [] && queue[1] != []
      requires d == Difference(queue[0][0].stamp, queue[1][0].stamp)
      modifies this, queue, recycled, held
      ensures Valid()
      ensures out == Output(old(View()), Together(0, 0)) && View() == Popped(old(View()), Together(0, 0))
    {
      var id := nextPairId;
      nextPairId := nextPairId + 1;
      var a := HoldEntry(0);
      var b := HoldEntry(1);
      out := Pair(id, Some(a), Some(b), -d);
      var absSkew := if out.skew < 0 then -out.skew else out.skew;
      if absSkew > maxAbsSkew { maxAbsSkew := absSkew; }
      paired := paired + 1;
    }

    method TryPop(now: int) returns (out: Option<Pair>)
      requires Valid()
      modifies this, queue, recycled, held, overrun, unpaired
      ensures Valid()
      ensures var choice := Choice(settings, old(View()), now, 0, 0);
              && (choice.None? ==> out.None? && View() == old(View()))
              && (choice.Some? ==> out == Some(Output(old(View()), choice.value))
                                   && View() == Popped(old(View()), choice.value))
      ensures out.Some? <==> PopsNow(settings, old(queue[0]), old(queue[1]), now)
      ensures out.Some? ==>
                && RightResult(settings, old(queue[0]), old(queue[1]), out.value)
                && out.value.pairId == old(nextPairId) == nextPairId - 1
                && queue[0] == Left(old(queue[0]), out.value.frame0)
                && queue[1] == Left(old(queue[1]), out.value.frame1)
    {
      ChoiceIsRight(settings, View(), now, 0, 0);
      // written as a while there, but its body always returns
      if queue[0] != [] && queue[1] != [] {
        var d := Difference(queue[0][0].stamp, queue[1][0].stamp);
        var distance := if d < 0 then -d else d;
        var result: Pair;
        if distance <= settings.tolerance {
          result := EmitPair(d);
        } else {
          result := EmitAlone(if d < 0 then 0 else 1);
        }
        return Some(result);
      }
      var s := 0;
      while s < 2
        invariant s <= 2 && Valid() && View() == old(View())
        invariant queue[0] == [] || queue[1] == []
        invariant forall k | 0 <= k < s :: queue[k] == [] || now - queue[k][0].arrived < settings.hold
      {
        if queue[s] != [] && now - queue[s][0].arrived >= settings.hold {
          var result := EmitAlone(s);
          return Some(result);
        }
        s := s + 1;
      }
      return None;
    }
  }

  function Fresh(): Pairer {
    var side := Side([], [], BLANK, 0, 0);
    Pairer(side, side, 0, 0, 0)
  }
}
