/** The MCAP recorder's queue: every topic has its own budget and its own pool of
    message buffers; pushing threads encode into a pooled buffer, one writer
    thread hands the messages to the file. */
module McapRecorder {
  import opened Options
  import opened Bytes
  import opened RingArithmetic
  import Cdr

  /** What CdrWriter::clear leaves. */
  const HEADER: Buffer := Cdr.HEADER

  /** Sequence numbers are 32 bits wide. */
  const SEQUENCES: nat := 0x1_0000_0000

  /** A pooled message buffer: which of its topic's, and what it holds. */
  datatype CdrBuffer = CdrBuffer(id: nat, bytes: Buffer)

  datatype Topic = Topic(depth: nat, queued: int, spare: seq<CdrBuffer>, sequence: nat, written: nat, drops: nat,
                         peak: int)

  datatype Message = Message(topic: nat, stamp: nat, cdr: CdrBuffer)

  /** What the file library is given; it may fail to write it. */
  datatype Handed = Handed(message: Message, sequence: nat, ok: bool)

  datatype Recorder = Recorder(topics: seq<Topic>, queue: seq<Message>, bytesInFlight: int, bytesPeak: int,
                               running: bool, handed: seq<Handed>)

  // ------------------------------------------------------ the critical sections

  /** The depth add_topic resolves; `wanted` is rate_hz x buffer_seconds, rounded
      up, and the cap is cut to 32 bits. */
  function Depth(queueDepth: nat, wanted: nat, memoryMb: nat, maxBytes: nat): nat
    requires maxBytes > 0
  {
    if queueDepth > 0 then queueDepth
    else
      var depth := if wanted < 4 then 4 else wanted;
      var cap := memoryMb * 1024 * 1024 / maxBytes % 0x1_0000_0000;
      var smaller := if cap < depth then cap else depth;
      if smaller < 1 then 1 else smaller
  }

  /** A topic always has room for a message, and a derived depth keeps the whole
      queue within the memory given to the topic unless one message exceeds it. */
  lemma DepthWithinBudget(queueDepth: nat, wanted: nat, memoryMb: nat, maxBytes: nat)
    requires maxBytes > 0
    ensures var d := Depth(queueDepth, wanted, memoryMb, maxBytes);
            && d >= 1
            && (queueDepth == 0 ==> d == 1 || d * maxBytes <= memoryMb * 1024 * 1024)
  {
    var budget := memoryMb * 1024 * 1024;
    var d := Depth(queueDepth, wanted, memoryMb, maxBytes);
    if queueDepth == 0 && d > 1 {
      Truncated(budget / maxBytes);
      Fits(d, budget, maxBytes);
    }
  }

  /** The depth is the one given; or the one asked for, at least four, or as much as the
      topic's memory holds, as long as that many messages can be counted in 32 bits. */
  lemma DepthIsUsed(queueDepth: nat, wanted: nat, memoryMb: nat, maxBytes: nat)
    requires maxBytes > 0
    ensures var d, most := Depth(queueDepth, wanted, memoryMb, maxBytes), if wanted < 4 then 4 else wanted;
            if queueDepth > 0 then d == queueDepth
            else
              && d <= most
              && (memoryMb * 1024 * 1024 / maxBytes < 0x1_0000_0000 ==>
                    d == most || (d + 1) * maxBytes > memoryMb * 1024 * 1024)
  {
    OneMoreIsTooMuch(Depth(queueDepth, wanted, memoryMb, maxBytes), memoryMb * 1024 * 1024, maxBytes);
  }

  lemma Truncated(x: nat)
    ensures x % 0x1_0000_0000 <= x
  {
  }

  lemma OneMoreIsTooMuch(d: nat, budget: nat, k: nat)
    requires k > 0
    ensures d >= budget / k ==> (d + 1) * k > budget
  {
    if d >= budget / k {
      DivMod(budget, k);
      MulMono(budget / k, d, k);
      Distribute(d, 1, k);
    }
  }

  lemma Fits(d: nat, budget: nat, k: nat)
    requires k > 0 && d <= budget / k
    ensures d * k <= budget
  {
    var most := budget / k;
    assert most * k <= budget;
    assert d * k <= most * k;
  }

  /** CdrWriter::clear: whatever the buffer held goes, the encapsulation header is
      put in; it stays the same buffer. */
  function Cleared(b: CdrBuffer): CdrBuffer {
    b.(bytes := HEADER)
  }

  /** What an encoder does to the buffer it is given. */
  function Appended(b: CdrBuffer, body: Buffer): CdrBuffer {
    b.(bytes := b.bytes + body)
  }

  /** A topic's first `n` buffers, new. */
  function Buffers(n: nat): seq<CdrBuffer> {
    seq(n, i requires 0 <= i < n => CdrBuffer(i, HEADER))
  }

  function Started(topics: seq<Topic>): seq<Topic> {
    seq(|topics|, i requires 0 <= i < |topics| =>
      topics[i].(spare := topics[i].spare + Buffers(topics[i].depth + 1)))
  }

  predicate HasRoom(r: Recorder, topic: nat)
    requires topic < |r.topics|
  {
    r.running && r.topics[topic].queued < r.topics[topic].depth
  }

  function SetTopic(r: Recorder, topic: nat, t: Topic): Recorder
    requires topic < |r.topics|
  {
    r.(topics := r.topics[topic := t])
  }

  function CountDrop(t: Topic): Topic {
    t.(drops := t.drops + 1)
  }

  /** The buffer a push gets to encode into, if it gets one. */
  function SpareFor(r: Recorder, topic: nat): Option<CdrBuffer> {
    if topic >= |r.topics| || !HasRoom(r, topic) || r.topics[topic].spare == [] then None
    else Some(r.topics[topic].spare[|r.topics[topic].spare| - 1])
  }

  function TookSpare(r: Recorder, topic: nat): Recorder {
    if topic >= |r.topics| then r
    else
      var t := r.topics[topic];
      if !HasRoom(r, topic) || t.spare == [] then SetTopic(r, topic, CountDrop(t))
      else SetTopic(r, topic, t.(spare := t.spare[..|t.spare| - 1]))
  }

  function Higher(x: int, y: int): int {
    if x > y then x else y
  }

  function Enqueued(r: Recorder, m: Message): Recorder
    requires m.topic < |r.topics|
  {
    var t := r.topics[m.topic];
    if !r.running then SetTopic(r, m.topic, CountDrop(t).(spare := t.spare + [Cleared(m.cdr)]))
    else
      SetTopic(r, m.topic, t.(queued := t.queued + 1, peak := Higher(t.queued + 1, t.peak)))
        .(queue := r.queue + [m], bytesInFlight := r.bytesInFlight + |m.cdr.bytes|,
          bytesPeak := Higher(r.bytesInFlight + |m.cdr.bytes|, r.bytesPeak))
  }

  /** The writer thread takes the oldest message. */
  function Dequeued(r: Recorder): Recorder
    requires r.queue != [] && r.queue[0].topic < |r.topics|
  {
    var m := r.queue[0];
    var t := r.topics[m.topic];
    SetTopic(r, m.topic, t.(queued := t.queued - 1))
      .(queue := r.queue[1..], bytesInFlight := r.bytesInFlight - |m.cdr.bytes|)
  }

  /** It numbers the message within its topic and hands it to the file. */
  function Wrote(r: Recorder, m: Message, ok: bool): Recorder
    requires m.topic < |r.topics|
  {
    var t := r.topics[m.topic];
    var u := t.(sequence := (t.sequence + 1) % SEQUENCES);
    SetTopic(r, m.topic, if ok then u.(written := u.written + 1) else CountDrop(u))
      .(handed := r.handed + [Handed(m, t.sequence, ok)])
  }

  /** Its buffer goes back to the pool, cleared. */
  function Recycled(r: Recorder, m: Message): Recorder
    requires m.topic < |r.topics|
  {
    var t := r.topics[m.topic];
    SetTopic(r, m.topic, t.(spare := t.spare + [Cleared(m.cdr)]))
  }

  // ------------------------------------------------------------------ the code

  /** A message type and its definition, as the file knows it. */
  datatype Schema = Schema(typeName: string, text: string)

  predicate Conflicts(schemas: seq<Schema>, typeName: string, text: string) {
    exists s :: s in schemas && s.typeName == typeName && s.text != text
  }

  class McapRecorder {
    var topics: seq<Topic>
    var queue: seq<Message>
    var bytesInFlight: int
    var bytesPeak: int
    var started: bool
    var running: bool
    var closed: bool
    var handed: seq<Handed>   // what the file library was given
    var schemas: seq<Schema>

    ghost function View(): Recorder
      reads this
    {
      Recorder(topics, queue, bytesInFlight, bytesPeak, running, handed)
    }

    ghost predicate Valid()
      reads this
    {
      && (forall i | 0 <= i < |queue| :: queue[i].topic < |topics|)
      && forall i, j | 0 <= i < j < |schemas| :: schemas[i].typeName != schemas[j].typeName
    }

    constructor ()
      ensures Valid() && !started && !running && !closed && topics == [] && queue == [] && handed == []
      ensures bytesInFlight == 0 && schemas == []
    {
      topics, queue, handed, schemas, bytesInFlight, bytesPeak := [], [], [], [], 0, 0;
      started, running, closed := false, false, false;
    }

    /** The schema declared for a type. */
    method FindSchema(typeName: string) returns (at: nat)
      requires Valid()
      ensures at <= |schemas| && (at < |schemas| ==> schemas[at].typeName == typeName)
      ensures at == |schemas| ==> forall s | s in schemas :: s.typeName != typeName
    {
      at := 0;
      while at < |schemas| && schemas[at].typeName != typeName
        invariant at <= |schemas| && forall i | 0 <= i < at :: schemas[i].typeName != typeName
      {
        at := at + 1;
      }
    }

    /** None after start(), for a topic without a message size, and for a type that was
        declared with another definition. */
    method AddTopic(typeName: string, text: string, queueDepth: nat, wanted: nat, memoryMb: nat, maxBytes: nat)
      returns (id: Option<nat>)
      requires Valid()
      modifies this
      ensures Valid() && started == old(started) && closed == old(closed)
      ensures id.None? <==> old(started) || maxBytes == 0 || Conflicts(old(schemas), typeName, text)
      ensures id.None? ==> View() == old(View()) && schemas == old(schemas)
      ensures id.Some? ==>
                id.value == old(|topics|)
                && View() == old(View()).(topics := old(topics)
                             + [Topic(Depth(queueDepth, wanted, memoryMb, maxBytes), 0, [], 0, 0, 0, 0)])
                && Schema(typeName, text) in schemas && old(schemas) <= schemas
                && forall s | s in schemas && s.typeName == typeName :: s.text == text
    {
      if started || maxBytes == 0 {
        return None;
      }
      var known := FindSchema(typeName);
      if known < |schemas| {
        if schemas[known].text != text {
          assert schemas[known] in schemas;
          return None;
        }
        assert schemas[known] == Schema(typeName, text);
      } else {
        schemas := schemas + [Schema(typeName, text)];
      }
      topics := topics + [Topic(Depth(queueDepth, wanted, memoryMb, maxBytes), 0, [], 0, 0, 0, 0)];
      return Some(|topics| - 1);
    }

    /** start: every topic gets one buffer more than it may queue. False if there
        is nothing to record. */
    method Start() returns (ok: bool)
      requires Valid()
      modifies this
      ensures Valid() && closed == old(closed) && schemas == old(schemas)
      ensures ok <==> old(started) || old(topics) != []
      ensures old(started) || !ok ==> View() == old(View()) && started == old(started)
      ensures ok && !old(started) ==>
                started && View() == old(View()).(topics := Started(old(topics)), running := true)
    {
      if started {
        return true;
      }
      if topics == [] {
        return false;
      }
      var i := 0;
      while i < |topics|
        invariant i <= |topics| == |old(topics)| && View() == old(View()).(topics := topics)
        invariant started == old(started) && closed == old(closed) && schemas == old(schemas)
        invariant forall k | 0 <= k < i :: topics[k] == Started(old(topics))[k]
        invariant forall k | i <= k < |topics| :: topics[k] == old(topics)[k]
      {
        var spare := topics[i].spare;
        var n := 0;
        while n <= topics[i].depth
          invariant n <= topics[i].depth + 1 && spare == topics[i].spare + Buffers(n)
        {
          spare := spare + [CdrBuffer(n, HEADER)];
          n := n + 1;
        }
        topics := topics[i := topics[i].(spare := spare)];
        i := i + 1;
      }
      assert topics == Started(old(topics));
      started, running := true, true;
      return true;
    }

    method TakeSpare(topic: nat) returns (cdr: Option<CdrBuffer>)
      requires Valid()
      modifies this
      ensures Valid() && started == old(started) && closed == old(closed) && schemas == old(schemas)
      ensures cdr == SpareFor(old(View()), topic) && View() == TookSpare(old(View()), topic)
      ensures cdr.Some? <==> topic < |old(topics)| && old(running) && old(topics)[topic].spare != []
                             && old(topics)[topic].queued < old(topics)[topic].depth
      ensures cdr.Some? ==> old(topics)[topic].spare == topics[topic].spare + [cdr.value]
      ensures topic < |old(topics)| ==>
                topics[topic].drops == old(topics)[topic].drops + if cdr.None? then 1 else 0
    {
      if topic >= |topics| {
        return None;
      }
      var state := topics[topic];
      if !running || state.queued >= state.depth {
        topics := topics[topic := state.(drops := state.drops + 1)];
        return None;
      }
      if state.spare == [] {
        topics := topics[topic := state.(drops := state.drops + 1)];
        return None;
      }
      var last := |state.spare| - 1;
      cdr := Some(state.spare[last]);
      topics := topics[topic := state.(spare := state.spare[..last])];
    }

    method Enqueue(topic: nat, stamp: nat, cdr: CdrBuffer) returns (accepted: bool)
      requires Valid() && topic < |topics|
      modifies this
      ensures Valid() && started == old(started) && closed == old(closed) && schemas == old(schemas)
      ensures accepted == old(running) && View() == Enqueued(old(View()), Message(topic, stamp, cdr))
      ensures accepted ==>
                && queue == old(queue) + [Message(topic, stamp, cdr)]
                && topics[topic].queued == old(topics)[topic].queued + 1 <= topics[topic].peak
                && bytesInFlight == old(bytesInFlight) + |cdr.bytes| <= bytesPeak
      ensures !accepted ==> topics[topic].drops == old(topics)[topic].drops + 1 && queue == old(queue)
    {
      var state := topics[topic];
      if !running {
        topics := topics[topic := state.(drops := state.drops + 1, spare := state.spare + [Cleared(cdr)])];
        return false;
      }
      bytesInFlight := bytesInFlight + |cdr.bytes|;
      if bytesInFlight > bytesPeak { bytesPeak := bytesInFlight; }
      queue := queue + [Message(topic, stamp, cdr)];
      state := state.(queued := state.queued + 1);
      if state.queued > state.peak { state := state.(peak := state.queued); }
      topics := topics[topic := state];
      return true;
    }

    /** push: `body` is what the encoder appends to the buffer. */
    method Push(topic: nat, stamp: nat, body: Buffer) returns (accepted: bool)
      requires Valid()
      modifies this
      ensures Valid() && started == old(started) && closed == old(closed) && schemas == old(schemas)
      ensures var spare := SpareFor(old(View()), topic);
              accepted == spare.Some?
              && View() == (if spare.None? then TookSpare(old(View()), topic)
                            else Enqueued(TookSpare(old(View()), topic),
                                          Message(topic, stamp, Appended(spare.value, body))))
      ensures accepted <==> topic < |old(topics)| && old(running) && old(topics)[topic].spare != []
                            && old(topics)[topic].queued < old(topics)[topic].depth
    {
      var cdr := TakeSpare(topic);
      if cdr.None? {
        return false;
      }
      accepted := Enqueue(topic, stamp, Appended(cdr.value, body));
    }

    /** The writer thread's critical section: None when there is nothing to take. */
    method TakeMessage() returns (message: Option<Message>)
      requires Valid()
      modifies this
      ensures Valid() && started == old(started) && closed == old(closed) && schemas == old(schemas)
      ensures message == if old(queue) == [] then None else Some(old(queue)[0])
      ensures View() == if old(queue) == [] then old(View()) else Dequeued(old(View()))
    {
      if queue == [] {
        return None;
      }
      var m := queue[0];
      queue := queue[1..];
      bytesInFlight := bytesInFlight - |m.cdr.bytes|;
      topics := topics[m.topic := topics[m.topic].(queued := topics[m.topic].queued - 1)];
      return Some(m);
    }

    method WriteMessage(m: Message, ok: bool)
      requires Valid() && m.topic < |topics|
      modifies this
      ensures Valid() && started == old(started) && closed == old(closed) && schemas == old(schemas)
      ensures View() == Wrote(old(View()), m, ok)
    {
      var state := topics[m.topic];
      handed := handed + [Handed(m, state.sequence, ok)];
      state := state.(sequence := (state.sequence + 1) % SEQUENCES);
      if ok {
        state := state.(written := state.written + 1);
      } else {
        state := state.(drops := state.drops + 1);
      }
      topics := topics[m.topic := state];
    }

    method Recycle(m: Message)
      requires Valid() && m.topic < |topics|
      modifies this
      ensures Valid() && started == old(started) && closed == old(closed) && schemas == old(schemas)
      ensures View() == Recycled(old(View()), m)
    {
      var state := topics[m.topic];
      topics := topics[m.topic := state.(spare := state.spare + [Cleared(m.cdr)])];
    }

    /** The writer thread's loop once the recorder has been closed: it drains the
        queue before it ends. `oks` answers its writes, one by one. */
    method Drain(oks: seq<bool>)
      requires Valid() && !running && |oks| == |queue|
      modifies this
      ensures Valid() && queue == [] && !running
      ensures |handed| == |old(handed)| + |old(queue)| && handed[..|old(handed)|] == old(handed)
      ensures forall i | 0 <= i < |old(queue)| ::
                handed[|old(handed)| + i].message == old(queue)[i] && handed[|old(handed)| + i].ok == oks[i]
    {
      ghost var before, all := handed, queue;
      var n := 0;
      while queue != []
        invariant Valid() && !running && n <= |all| == |oks| && queue == all[n..]
        invariant |handed| == |before| + n && handed[..|before|] == before
        invariant forall i | 0 <= i < n :: handed[|before| + i].message == all[i] && handed[|before| + i].ok == oks[i]
        decreases |queue|
      {
        var m := TakeMessage();
        WriteMessage(m.value, oks[n]);
        Recycle(m.value);
        n := n + 1;
      }
    }

    /** close, up to the join: false if it was closed before. */
    method Close() returns (first: bool)
      modifies this
      requires Valid()
      ensures Valid() && closed && first == !old(closed)
      ensures View() == if first then old(View()).(running := false) else old(View())
    {
      if closed {
        return false;
      }
      closed := true;
      running := false;
      return true;
    }
  }
}
