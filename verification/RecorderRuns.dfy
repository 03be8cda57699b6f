/** Runs of the MCAP recorder: one pushing thread per topic, the writer thread and
    a closing thread, interleaved at every critical section. */
module RecorderRuns {
  import opened Options
  import opened Bytes
  import opened McapRecorder

  datatype Writer =
    | Waiting
    | Writing(message: Message)
    | Recycling(message: Message)
    | Exited

  /** The buffer a pusher has between take_spare and enqueue; `body` is everything
      its encoder has written so far. */
  datatype Encode = Encode(cdr: CdrBuffer, body: Buffer)

  /** `encoding[t]` is what topic t's pusher is at. History: the messages accepted,
      what their encoders wrote, the pushes begun per topic, and whether take_spare
      ever found the pool empty with room in the budget. */
  datatype Run = Run(r: Recorder, encoding: seq<Option<Encode>>, writer: Writer,
                     accepted: seq<Message>, bodies: seq<Buffer>, pushes: seq<nat>, starved: bool)

  datatype Action =
    | Take(topic: nat)
    | Append(topic: nat, bytes: Buffer)   // the encoder writes
    | Enqueue(topic: nat, stamp: nat)
    | WriterStep(ok: bool)   // `ok` answers the file, if it is asked to write
    | Close

  ghost predicate Shape(s: Run) {
    && |s.encoding| == |s.pushes| == |s.r.topics|
    && (forall i: nat | i < |s.r.queue| :: s.r.queue[i].topic < |s.r.topics|)
    && (s.writer.Writing? ==> s.writer.message.topic < |s.r.topics|)
    && (s.writer.Recycling? ==> s.writer.message.topic < |s.r.topics|)
  }

  /** Right after start(). */
  function Start(depths: seq<nat>): Run {
    var topics := seq(|depths|, i requires 0 <= i < |depths| => Topic(depths[i], 0, [], 0, 0, 0, 0));
    Run(Recorder(Started(topics), [], 0, 0, true, []), seq(|depths|, i => None), Waiting, [], [],
        seq(|depths|, i => 0), false)
  }

  function TakeStep(s: Run, topic: nat): Run
    requires |s.encoding| == |s.pushes| == |s.r.topics|
  {
    if topic >= |s.r.topics| || s.encoding[topic].Some? then s   // a push in progress: one pusher per topic
    else
      var spare := SpareFor(s.r, topic);
      s.(r := TookSpare(s.r, topic),
         encoding := s.encoding[topic := if spare.None? then None else Some(Encode(spare.value, []))],
         pushes := s.pushes[topic := s.pushes[topic] + 1],
         starved := s.starved || (s.r.running && s.r.topics[topic].queued < s.r.topics[topic].depth
                                  && s.r.topics[topic].spare == []))
  }

  function AppendStep(s: Run, topic: nat, bytes: Buffer): Run
    requires |s.encoding| == |s.r.topics|
  {
    if topic >= |s.r.topics| || s.encoding[topic].None? then s
    else
      var e := s.encoding[topic].value;
      s.(encoding := s.encoding[topic := Some(Encode(Appended(e.cdr, bytes), e.body + bytes))])
  }

  function EnqueueStep(s: Run, topic: nat, stamp: nat): Run
    requires |s.encoding| == |s.r.topics|
  {
    if topic >= |s.r.topics| || s.encoding[topic].None? then s
    else
      var m := Message(topic, stamp, s.encoding[topic].value.cdr);
      s.(r := Enqueued(s.r, m), encoding := s.encoding[topic := None],
         accepted := if s.r.running then s.accepted + [m] else s.accepted,
         bodies := if s.r.running then s.bodies + [s.encoding[topic].value.body] else s.bodies)
  }

  ghost function WriterNext(s: Run, ok: bool): Run
    requires Shape(s)
  {
    match s.writer
    case Waiting =>
      if s.r.queue != [] then s.(r := Dequeued(s.r), writer := Writing(s.r.queue[0]))
      else if !s.r.running then s.(writer := Exited)
      else s
    case Writing(m) => s.(r := Wrote(s.r, m, ok), writer := Recycling(m))
    case Recycling(m) => s.(r := Recycled(s.r, m), writer := Waiting)
    case Exited => s
  }

  ghost function Next(s: Run, a: Action): Run
    requires Shape(s)
  {
    match a
    case Take(topic) => TakeStep(s, topic)
    case Append(topic, bytes) => AppendStep(s, topic, bytes)
    case Enqueue(topic, stamp) => EnqueueStep(s, topic, stamp)
    case WriterStep(ok) => WriterNext(s, ok)
    case Close => s.(r := s.r.(running := false))
  }

  // ------------------------------------------------------- what every run keeps

  /** Messages of one topic in a queue. */
  function Of(queue: seq<Message>, topic: nat): nat {
    if queue == [] then 0 else Of(queue[..|queue| - 1], topic) + if queue[|queue| - 1].topic == topic then 1 else 0
  }

  function Size(queue: seq<Message>): nat {
    if queue == [] then 0 else Size(queue[..|queue| - 1]) + |queue[|queue| - 1].cdr.bytes|
  }

  /** Messages of one topic handed to the file, and how many of them failed. */
  function HandedOf(handed: seq<Handed>, topic: nat): nat {
    if handed == [] then 0
    else HandedOf(handed[..|handed| - 1], topic) + if handed[|handed| - 1].message.topic == topic then 1 else 0
  }

  lemma {:induction false} DropFirst(queue: seq<Message>, topic: nat)
    requires queue != []
    ensures Of(queue[1..], topic) == Of(queue, topic) - if queue[0].topic == topic then 1 else 0
    ensures Size(queue[1..]) == Size(queue) - |queue[0].cdr.bytes|
  {
    if |queue| > 1 {
      var init := queue[..|queue| - 1];
      assert init[1..] == queue[1..][..|queue| - 2];
      DropFirst(init, topic);
    }
  }

  lemma AddLast(queue: seq<Message>, m: Message, topic: nat)
    ensures Of(queue + [m], topic) == Of(queue, topic) + if m.topic == topic then 1 else 0
    ensures Size(queue + [m]) == Size(queue) + |m.cdr.bytes|
  {
    assert (queue + [m])[..|queue|] == queue;
  }

  function InHand(w: Writer, topic: nat): nat {
    if (w.Writing? || w.Recycling?) && w.message.topic == topic then 1 else 0
  }

  function Encoding(o: Option<Encode>): nat {
    if o.Some? then 1 else 0
  }

  /** Topic `t`'s buffers: none is ever lost, and all free ones are clear. */
  ghost predicate PoolOk(s: Run, t: nat)
    requires Shape(s) && t < |s.r.topics|
  {
    var topic := s.r.topics[t];
    && topic.depth >= 1
    && |topic.spare| + Of(s.r.queue, t) + Encoding(s.encoding[t]) + InHand(s.writer, t) == topic.depth + 1
    && (forall i: nat | i < |topic.spare| :: topic.spare[i].bytes == HEADER)
    && (s.encoding[t].Some? ==> s.encoding[t].value.cdr.bytes == HEADER + s.encoding[t].value.body)
    && topic.queued == Of(s.r.queue, t) && topic.queued <= topic.depth && topic.peak <= topic.depth
    && (s.encoding[t].Some? ==> topic.queued < topic.depth)
  }

  ghost predicate CountsOk(s: Run, t: nat)
    requires Shape(s) && t < |s.r.topics|
  {
    var topic := s.r.topics[t];
    && topic.sequence == HandedOf(s.r.handed, t) % SEQUENCES
    && s.pushes[t] == topic.written + topic.drops + topic.queued + Encoding(s.encoding[t])
                      + if s.writer.Writing? && s.writer.message.topic == t then 1 else 0
  }

  function InWriter(w: Writer): seq<Message> {
    if w.Writing? then [w.message] else []
  }

  /** Every accepted message has been handed to the file, is being written or is
      queued, in the order they were accepted. */
  ghost predicate OrderOk(s: Run) {
    && |s.accepted| == |s.r.handed| + |InWriter(s.writer)| + |s.r.queue|
    && (forall i: nat | i < |s.r.handed| :: s.r.handed[i].message == s.accepted[i])
    && (forall i: nat | i < |InWriter(s.writer)| :: InWriter(s.writer)[i] == s.accepted[|s.r.handed| + i])
    && (forall i: nat | i < |s.r.queue| :: s.r.queue[i] == s.accepted[|s.r.handed| + |InWriter(s.writer)| + i])
  }

  /** A message is the header and what its own encoder wrote. */
  ghost predicate BodiesOk(s: Run) {
    && |s.bodies| == |s.accepted|
    && forall i: nat | i < |s.accepted| :: s.accepted[i].cdr.bytes == HEADER + s.bodies[i]
  }

  // ---- where a topic's buffers are

  function FreeOf(spare: seq<CdrBuffer>, id: nat): nat {
    if spare == [] then 0 else FreeOf(spare[..|spare| - 1], id) + if spare[|spare| - 1].id == id then 1 else 0
  }

  function QueuedOf(queue: seq<Message>, topic: nat, id: nat): nat {
    if queue == [] then 0
    else QueuedOf(queue[..|queue| - 1], topic, id) + Is(queue[|queue| - 1], topic, id)
  }

  /** The message is in buffer `id` of its topic. */
  function Is(m: Message, topic: nat, id: nat): nat {
    if m.topic == topic && m.cdr.id == id then 1 else 0
  }

  function EncodingOf(o: Option<Encode>, id: nat): nat {
    if o.Some? && o.value.cdr.id == id then 1 else 0
  }

  function WriterOf(w: Writer, topic: nat, id: nat): nat {
    if w.Writing? || w.Recycling? then Is(w.message, topic, id) else 0
  }

  /** How often buffer `id` of topic `t` is somewhere. */
  function Places(s: Run, t: nat, id: nat): nat
    requires t < |s.r.topics| == |s.encoding|
  {
    FreeOf(s.r.topics[t].spare, id) + QueuedOf(s.r.queue, t, id)
    + EncodingOf(s.encoding[t], id) + WriterOf(s.writer, t, id)
  }

  /** Numbers within a topic are gap-free. */
  ghost predicate NumbersOk(handed: seq<Handed>) {
    forall i: nat | i < |handed| ::
      handed[i].sequence == HandedOf(handed[..i], handed[i].message.topic) % SEQUENCES
  }

  ghost predicate Inv(s: Run) {
    && Shape(s) && !s.starved && OrderOk(s) && NumbersOk(s.r.handed)
    && (forall t: nat | t < |s.r.topics| :: PoolOk(s, t))
    && (forall t: nat | t < |s.r.topics| :: CountsOk(s, t))
    && BodiesOk(s) && s.r.bytesInFlight == Size(s.r.queue)
    && (s.writer.Exited? ==> !s.r.running && s.r.queue == [])
  }

  lemma StartInv(depths: seq<nat>)
    requires forall d | d in depths :: d >= 1
    ensures Inv(Start(depths))
  {
    var s := Start(depths);
    forall t: nat | t < |s.r.topics| ensures PoolOk(s, t) && CountsOk(s, t) {
      assert depths[t] in depths;
      assert s.r.topics[t].spare == Buffers(depths[t] + 1);
    }
  }

  // ---- one buffer moving from place to place

  lemma FreePush(spare: seq<CdrBuffer>, b: CdrBuffer, id: nat)
    ensures FreeOf(spare + [b], id) == FreeOf(spare, id) + if b.id == id then 1 else 0
  {
    assert (spare + [b])[..|spare|] == spare;
  }

  lemma {:induction false} FreeNew(n: nat, id: nat)
    ensures FreeOf(Buffers(n), id) == if id < n then 1 else 0
  {
    if n > 0 {
      FreeNew(n - 1, id);
      assert Buffers(n) == Buffers(n - 1) + [CdrBuffer(n - 1, HEADER)];
      FreePush(Buffers(n - 1), CdrBuffer(n - 1, HEADER), id);
    }
  }

  lemma QueuedPush(queue: seq<Message>, m: Message, topic: nat, id: nat)
    ensures QueuedOf(queue + [m], topic, id) == QueuedOf(queue, topic, id) + Is(m, topic, id)
  {
    assert (queue + [m])[..|queue|] == queue;
  }

  lemma {:induction false} QueuedDrop(queue: seq<Message>, topic: nat, id: nat)
    requires queue != []
    ensures QueuedOf(queue, topic, id) == QueuedOf(queue[1..], topic, id) + Is(queue[0], topic, id)
  {
    if |queue| > 1 {
      var init := queue[..|queue| - 1];
      assert init[1..] == queue[1..][..|queue| - 2];
      QueuedDrop(init, topic, id);
    }
  }

  lemma TakePlaces(s: Run, topic: nat, t: nat, id: nat)
    requires Shape(s) && topic < |s.r.topics| && s.encoding[topic].None? && t < |s.r.topics|
    ensures var u := TakeStep(s, topic);
            Shape(u) && |u.r.topics| == |s.r.topics| && u.r.topics[t].depth == s.r.topics[t].depth
            && Places(u, t, id) == Places(s, t, id)
  {
    hide QueuedOf;
  }

  lemma AppendPlaces(s: Run, topic: nat, bytes: Buffer, t: nat, id: nat)
    requires Shape(s) && topic < |s.r.topics| && s.encoding[topic].Some? && t < |s.r.topics|
    ensures var u := AppendStep(s, topic, bytes);
            Shape(u) && |u.r.topics| == |s.r.topics| && u.r.topics[t].depth == s.r.topics[t].depth
            && Places(u, t, id) == Places(s, t, id)
  {
    hide QueuedOf, FreeOf;
  }

  lemma EnqueuePlaces(s: Run, topic: nat, stamp: nat, t: nat, id: nat)
    requires Shape(s) && topic < |s.r.topics| && s.encoding[topic].Some? && t < |s.r.topics|
    ensures var u := EnqueueStep(s, topic, stamp);
            Shape(u) && |u.r.topics| == |s.r.topics| && u.r.topics[t].depth == s.r.topics[t].depth
            && Places(u, t, id) == Places(s, t, id)
  {
    hide QueuedOf, FreeOf;
    var cdr := s.encoding[topic].value.cdr;
    QueuedPush(s.r.queue, Message(topic, stamp, cdr), t, id);
    FreePush(s.r.topics[t].spare, Cleared(cdr), id);
  }

  lemma WriterPlaces(s: Run, ok: bool, t: nat, id: nat)
    requires Shape(s) && t < |s.r.topics|
    ensures var u := WriterNext(s, ok);
            Shape(u) && |u.r.topics| == |s.r.topics| && u.r.topics[t].depth == s.r.topics[t].depth
            && Places(u, t, id) == Places(s, t, id)
  {
    hide QueuedOf, FreeOf;
    if s.r.queue != [] { QueuedDrop(s.r.queue, t, id); }
    if s.writer.Recycling? { FreePush(s.r.topics[t].spare, Cleared(s.writer.message.cdr), id); }
  }

  /** No step moves a buffer but from one place to another. */
  lemma NextPlaces(s: Run, a: Action, t: nat, id: nat)
    requires Shape(s) && t < |s.r.topics|
    ensures var u := Next(s, a);
            Shape(u) && |u.r.topics| == |s.r.topics| && u.r.topics[t].depth == s.r.topics[t].depth
            && Places(u, t, id) == Places(s, t, id)
  {
    match a
    case Take(topic) => if topic < |s.r.topics| && s.encoding[topic].None? { TakePlaces(s, topic, t, id); }
    case Append(topic, bytes) =>
      if topic < |s.r.topics| && s.encoding[topic].Some? { AppendPlaces(s, topic, bytes, t, id); }
    case Enqueue(topic, stamp) =>
      if topic < |s.r.topics| && s.encoding[topic].Some? { EnqueuePlaces(s, topic, stamp, t, id); }
    case WriterStep(ok) => WriterPlaces(s, ok, t, id);
    case Close =>
    hide Places;
  }

  // ---- pushing

  /** With one pusher per topic a topic with room has a free buffer. */
  lemma RoomHasSpare(s: Run, t: nat)
    requires Shape(s) && t < |s.r.topics| && PoolOk(s, t) && s.encoding[t].None? && HasRoom(s.r, t)
    ensures s.r.topics[t].spare != []
  {
  }

  lemma TakeTopic(s: Run, topic: nat, t: nat)
    requires Shape(s) && topic < |s.r.topics| && s.encoding[topic].None? && t < |s.r.topics|
    requires PoolOk(s, t) && CountsOk(s, t)
    ensures PoolOk(TakeStep(s, topic), t) && CountsOk(TakeStep(s, topic), t)
  {
    hide Of, HandedOf;
    var u := TakeStep(s, topic);
    var spare := s.r.topics[t].spare;
    if t != topic {
      assert u.r.topics[t] == s.r.topics[t] && u.encoding[t] == s.encoding[t];
    } else if SpareFor(s.r, t).Some? {
      assert u.r.topics[t] == s.r.topics[t].(spare := spare[..|spare| - 1]);
    } else {
      assert u.r.topics[t] == CountDrop(s.r.topics[t]);
    }
  }

  lemma TakeKeeps(s: Run, topic: nat)
    requires Inv(s)
    ensures Inv(TakeStep(s, topic))
  {
    var u := TakeStep(s, topic);
    if topic < |s.r.topics| && s.encoding[topic].None? {
      if HasRoom(s.r, topic) { RoomHasSpare(s, topic); }
      forall t: nat | t < |u.r.topics| ensures PoolOk(u, t) && CountsOk(u, t) {
        TakeTopic(s, topic, t);
      }
      hide PoolOk, CountsOk;
    }
  }

  lemma AppendTopic(s: Run, topic: nat, bytes: Buffer, t: nat)
    requires Shape(s) && topic < |s.r.topics| && s.encoding[topic].Some? && t < |s.r.topics|
    requires PoolOk(s, t) && CountsOk(s, t)
    ensures PoolOk(AppendStep(s, topic, bytes), t) && CountsOk(AppendStep(s, topic, bytes), t)
  {
    hide Of, HandedOf;
    var e := s.encoding[topic].value;
    assert HEADER + e.body + bytes == HEADER + (e.body + bytes);
  }

  lemma AppendKeeps(s: Run, topic: nat, bytes: Buffer)
    requires Inv(s)
    ensures Inv(AppendStep(s, topic, bytes))
  {
    var u := AppendStep(s, topic, bytes);
    if topic < |s.r.topics| && s.encoding[topic].Some? {
      forall t: nat | t < |u.r.topics| ensures PoolOk(u, t) && CountsOk(u, t) {
        AppendTopic(s, topic, bytes, t);
      }
      hide PoolOk, CountsOk;
    }
  }

  lemma EnqueueTopic(s: Run, topic: nat, stamp: nat, t: nat)
    requires Shape(s) && topic < |s.r.topics| && s.encoding[topic].Some? && t < |s.r.topics|
    requires PoolOk(s, t) && CountsOk(s, t)
    ensures PoolOk(EnqueueStep(s, topic, stamp), t) && CountsOk(EnqueueStep(s, topic, stamp), t)
  {
    AddLast(s.r.queue, Message(topic, stamp, s.encoding[topic].value.cdr), t);
    hide Of, HandedOf;
  }

  lemma EnqueueOrder(s: Run, topic: nat, stamp: nat)
    requires Shape(s) && topic < |s.r.topics| && s.encoding[topic].Some? && OrderOk(s)
    ensures OrderOk(EnqueueStep(s, topic, stamp))
  {
    var u, m := EnqueueStep(s, topic, stamp), Message(topic, stamp, s.encoding[topic].value.cdr);
    assert u.r.handed == s.r.handed && u.writer == s.writer;
    assert u.r.queue == (if s.r.running then s.r.queue + [m] else s.r.queue);
    hide EnqueueStep;
  }

  lemma EnqueueBodies(s: Run, topic: nat, stamp: nat)
    requires Shape(s) && topic < |s.r.topics| && s.encoding[topic].Some? && BodiesOk(s) && PoolOk(s, topic)
    ensures BodiesOk(EnqueueStep(s, topic, stamp))
  {
  }

  lemma EnqueueKeeps(s: Run, topic: nat, stamp: nat)
    requires Inv(s)
    ensures Inv(EnqueueStep(s, topic, stamp))
  {
    var u := EnqueueStep(s, topic, stamp);
    if topic < |s.r.topics| && s.encoding[topic].Some? {
      forall t: nat | t < |u.r.topics| ensures PoolOk(u, t) && CountsOk(u, t) {
        EnqueueTopic(s, topic, stamp, t);
      }
      EnqueueOrder(s, topic, stamp);
      EnqueueBodies(s, topic, stamp);
      AddLast(s.r.queue, Message(topic, stamp, s.encoding[topic].value.cdr), topic);
      hide PoolOk, CountsOk, OrderOk, BodiesOk;
    }
  }

  // ---- writing

  lemma DequeueTopic(s: Run, t: nat)
    requires Shape(s) && s.writer.Waiting? && s.r.queue != [] && t < |s.r.topics| && PoolOk(s, t) && CountsOk(s, t)
    ensures PoolOk(WriterNext(s, true), t) && CountsOk(WriterNext(s, true), t)
  {
    DropFirst(s.r.queue, t);
  }

  lemma DequeueKeeps(s: Run)
    requires Inv(s) && s.writer.Waiting? && s.r.queue != []
    ensures Inv(WriterNext(s, true))
  {
    var u := WriterNext(s, true);
    forall t: nat | t < |u.r.topics| ensures PoolOk(u, t) && CountsOk(u, t) {
      DequeueTopic(s, t);
    }
    DropFirst(s.r.queue, 0);
    hide PoolOk, CountsOk;
  }

  lemma WriteTopic(s: Run, ok: bool, t: nat)
    requires Shape(s) && s.writer.Writing? && t < |s.r.topics| && PoolOk(s, t) && CountsOk(s, t)
    ensures PoolOk(WriterNext(s, ok), t) && CountsOk(WriterNext(s, ok), t)
  {
    assert WriterNext(s, ok).r.handed[..|s.r.handed|] == s.r.handed;
  }

  lemma WriteNumbers(handed: seq<Handed>, h: Handed)
    requires NumbersOk(handed) && h.sequence == HandedOf(handed, h.message.topic) % SEQUENCES
    ensures NumbersOk(handed + [h])
  {
    var all := handed + [h];
    forall i: nat | i < |all|
      ensures all[i].sequence == HandedOf(all[..i], all[i].message.topic) % SEQUENCES
    {
      assert all[..i] == handed[..i];
      if i == |handed| { assert handed[..i] == handed; }
    }
  }

  lemma WriteOrder(s: Run, ok: bool)
    requires Shape(s) && s.writer.Writing? && OrderOk(s)
    ensures OrderOk(WriterNext(s, ok))
  {
    assert InWriter(s.writer)[0] == s.writer.message;
  }

  lemma WriteKeeps(s: Run, ok: bool)
    requires Inv(s) && s.writer.Writing?
    ensures Inv(WriterNext(s, ok))
  {
    var u := WriterNext(s, ok);
    var t := s.writer.message.topic;
    assert CountsOk(s, t);
    WriteNumbers(s.r.handed, Handed(s.writer.message, s.r.topics[t].sequence, ok));
    WriteOrder(s, ok);
    forall t: nat | t < |u.r.topics| ensures PoolOk(u, t) && CountsOk(u, t) {
      WriteTopic(s, ok, t);
    }
    hide PoolOk, CountsOk, OrderOk, NumbersOk;
  }

  lemma RecycleTopic(s: Run, t: nat)
    requires Shape(s) && s.writer.Recycling? && t < |s.r.topics| && PoolOk(s, t) && CountsOk(s, t)
    ensures PoolOk(WriterNext(s, true), t) && CountsOk(WriterNext(s, true), t)
  {
    hide Of, HandedOf;
  }

  lemma RecycleKeeps(s: Run)
    requires Inv(s) && s.writer.Recycling?
    ensures Inv(WriterNext(s, true))
  {
    var u := WriterNext(s, true);
    forall t: nat | t < |u.r.topics| ensures PoolOk(u, t) && CountsOk(u, t) {
      RecycleTopic(s, t);
    }
    hide PoolOk, CountsOk;
  }

  lemma StopTopic(s: Run, u: Run, t: nat)
    requires Shape(s) && t < |s.r.topics| && PoolOk(s, t) && CountsOk(s, t)
    requires u == s.(r := s.r.(running := false), writer := u.writer)
    requires u.writer == s.writer || (u.writer.Exited? && s.writer.Waiting?)
    ensures PoolOk(u, t) && CountsOk(u, t)
  {
    hide Of, HandedOf;
  }

  /** The writer ends, or the recorder is closed: no buffer and no message moves. */
  lemma StopKeeps(s: Run, u: Run)
    requires Inv(s) && u == s.(r := s.r.(running := false), writer := u.writer)
    requires u.writer == s.writer || (u.writer.Exited? && s.writer.Waiting? && s.r.queue == [])
    ensures Inv(u)
  {
    forall t: nat | t < |u.r.topics| ensures PoolOk(u, t) && CountsOk(u, t) {
      StopTopic(s, u, t);
    }
    hide PoolOk, CountsOk;
  }

  lemma NextKeeps(s: Run, a: Action)
    requires Inv(s)
    ensures Inv(Next(s, a))
  {
    match a
    case Take(topic) => TakeKeeps(s, topic);
    case Append(topic, bytes) => AppendKeeps(s, topic, bytes);
    case Enqueue(topic, stamp) => EnqueueKeeps(s, topic, stamp);
    case Close => StopKeeps(s, Next(s, a));
    case WriterStep(ok) =>
      match s.writer
      case Waiting =>
        if s.r.queue != [] { DequeueKeeps(s); }
        else if !s.r.running { StopKeeps(s, Next(s, a)); }
      case Writing(_) => WriteKeeps(s, ok);
      case Recycling(_) => RecycleKeeps(s);
      case Exited =>
  }

  // ------------------------------------------------------------ main theorems

  ghost function Runs(depths: seq<nat>, acts: seq<Action>): (s: Run)
    requires forall d | d in depths :: d >= 1
    ensures Shape(s)
    decreases |acts|, 0
  {
    if acts == [] then
      StartInv(depths);
      Start(depths)
    else
      var before := Runs(depths, acts[..|acts| - 1]);
      RunsInv(depths, acts[..|acts| - 1]);
      NextKeeps(before, acts[|acts| - 1]);
      Next(before, acts[|acts| - 1])
  }

  lemma {:induction false} RunsInv(depths: seq<nat>, acts: seq<Action>)
    requires forall d | d in depths :: d >= 1
    ensures Inv(Runs(depths, acts))
    decreases |acts|, 1
  {
    hide Inv, Next;
    if acts == [] {
      StartInv(depths);
    } else {
      var before := acts[..|acts| - 1];
      RunsInv(depths, before);
      NextKeeps(Runs(depths, before), acts[|acts| - 1]);
    }
  }

  /** The pool argument: whatever the threads do, each topic's buffers are all
      accounted for, take_spare never meets an empty pool with room in the budget,
      and the queue stays within the budget. */
  lemma PoolNeverRunsDry(depths: seq<nat>, acts: seq<Action>, t: nat)
    requires (forall d | d in depths :: d >= 1) && t < |Runs(depths, acts).r.topics|
    ensures var s := Runs(depths, acts);
            && !s.starved
            && |s.r.topics[t].spare| + Of(s.r.queue, t) + Encoding(s.encoding[t]) + InHand(s.writer, t)
               == s.r.topics[t].depth + 1
            && s.r.topics[t].queued == Of(s.r.queue, t) <= s.r.topics[t].depth
            && s.r.bytesInFlight == Size(s.r.queue)
  {
    RunsInv(depths, acts);
    assert PoolOk(Runs(depths, acts), t);
  }

  /** The budget is there to be used: in every run a topic's pusher that starts a push
      gets a buffer exactly if the recorder runs and fewer messages of the topic are
      queued than its depth. */
  lemma BufferWhileRoom(depths: seq<nat>, acts: seq<Action>, t: nat)
    requires (forall d | d in depths :: d >= 1) && t < |depths|
    requires var s := Runs(depths, acts); t < |s.encoding| && s.encoding[t].None?
    ensures var s := Runs(depths, acts);
            && t < |Next(s, Take(t)).encoding|
            && (Next(s, Take(t)).encoding[t].Some? <==> s.r.running && Of(s.r.queue, t) < depths[t])
  {
    RunsInv(depths, acts);
    EachBufferOnce(depths, acts, t, 0);
    PoolNeverRunsDry(depths, acts, t);
    var s := Runs(depths, acts);
    assert PoolOk(s, t);
    hide Runs, Places;
    if s.r.running && s.r.topics[t].queued < depths[t] { RoomHasSpare(s, t); }
  }

  /** Each of a topic's buffers is at any moment in exactly one place: free, queued,
      being encoded into, or with the writer. None is lost and none is shared. */
  lemma {:induction false} EachBufferOnce(depths: seq<nat>, acts: seq<Action>, t: nat, id: nat)
    requires (forall d | d in depths :: d >= 1) && t < |depths|
    ensures var s := Runs(depths, acts);
            && |s.r.topics| == |depths| && s.r.topics[t].depth == depths[t]
            && Places(s, t, id) == if id <= depths[t] then 1 else 0
  {
    if acts == [] {
      FreeNew(depths[t] + 1, id);
      assert Start(depths).r.topics[t].spare == Buffers(depths[t] + 1);
    } else {
      var before := acts[..|acts| - 1];
      EachBufferOnce(depths, before, t, id);
      hide Places, Next;
      NextPlaces(Runs(depths, before), acts[|acts| - 1], t, id);
    }
  }

  /** Every message accepted is the encapsulation header and what its own encoder
      wrote, nothing of the messages its buffer carried before; and a free buffer
      holds the header only. */
  lemma BuffersAreClean(depths: seq<nat>, acts: seq<Action>, t: nat)
    requires (forall d | d in depths :: d >= 1) && t < |Runs(depths, acts).r.topics|
    ensures var s := Runs(depths, acts);
            && |s.bodies| == |s.accepted|
            && (forall i: nat | i < |s.accepted| :: s.accepted[i].cdr.bytes == HEADER + s.bodies[i])
            && (forall b | b in s.r.topics[t].spare :: b.bytes == HEADER)
  {
    RunsInv(depths, acts);
    assert PoolOk(Runs(depths, acts), t);
    hide Runs;
  }

  /** Messages reach the file in the order they were accepted, numbered without a
      gap within their topic, and every push ends as exactly one of written or
      dropped unless it is still on its way. */
  lemma InOrderAndAccounted(depths: seq<nat>, acts: seq<Action>, t: nat)
    requires (forall d | d in depths :: d >= 1) && t < |Runs(depths, acts).r.topics|
    ensures var s := Runs(depths, acts);
            && |s.r.handed| <= |s.accepted|
            && (forall i: nat | i < |s.r.handed| :: s.r.handed[i].message == s.accepted[i])
            && NumbersOk(s.r.handed)
            && s.pushes[t] == s.r.topics[t].written + s.r.topics[t].drops + Of(s.r.queue, t) + Encoding(s.encoding[t])
                 + if s.writer.Writing? && s.writer.message.topic == t then 1 else 0
  {
    RunsInv(depths, acts);
    assert PoolOk(Runs(depths, acts), t) && CountsOk(Runs(depths, acts), t);
  }

  /** close() joins the writer: when it has ended, every accepted message has been
      handed to the file and every finished push was written or dropped; and
      nothing is accepted after that. */
  lemma CloseHandlesEverything(depths: seq<nat>, acts: seq<Action>, t: nat, later: Action)
    requires (forall d | d in depths :: d >= 1) && t < |Runs(depths, acts).r.topics|
    requires Runs(depths, acts).writer.Exited?
    ensures var s := Runs(depths, acts);
            && |s.r.handed| == |s.accepted|
            && (forall i: nat | i < |s.accepted| :: s.r.handed[i].message == s.accepted[i])
            && (s.encoding[t].None? ==> s.pushes[t] == s.r.topics[t].written + s.r.topics[t].drops)
            && Next(s, later).accepted == s.accepted
  {
    RunsInv(depths, acts);
    assert PoolOk(Runs(depths, acts), t) && CountsOk(Runs(depths, acts), t);
  }
}
