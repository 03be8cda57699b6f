/** Runs of one camera's writer: the acquisition thread pushing, with its copy made
    byte by byte between two critical sections, the writer thread, and a closing
    thread; and what a reader finds in the files at any moment. */
module StreamRuns {
  import opened Options
  import opened Bytes
  import opened Cdr
  import opened RingArithmetic
  import opened RecordingFormat
  import opened StreamWriting
  import RecordingReading

  datatype Frame = Frame(stamp: u64, received: u64, frameId: u32, data: Buffer)

  datatype Producer =
    | Idle
    | Copying(slot: nat, frame: Frame, at: nat)
    | Ready(slot: nat, frame: Frame)   // copied and described; about to publish

  datatype Writer =
    | Waiting
    | Writing(slot: nat)
    | Advancing(slot: nat, ok: bool)
    | Exited

  /** History: the frames accepted, how many of them the writer is through with,
      which of them are in the files, how many writes failed and how many bytes of
      torn records they left in the index, and whether a push was in progress when
      the writer left. */
  datatype Run = Run(s: Stream, producer: Producer, writer: Writer, accepted: seq<Frame>, done: nat,
                     keptAt: seq<nat>, failures: nat, torn: nat, pushes: nat, late: bool, cut: bool)

  datatype Action =
    | Push(frame: Frame)
    | ProducerStep
    | WriterStep(landed: Landed)   // `landed` answers the files, if they are written
    | Stop
    | Cut                          // close, after the join

  function Start(frameBytes: nat, staging: nat): Run {
    Run(Opened(frameBytes, staging), Idle, Waiting, [], 0, [], 0, 0, 0, false, false)
  }

  ghost predicate Shape(r: Run) {
    && r.s.Shape()
    && (r.producer.Copying? ==>
          r.producer.slot < |r.s.staging| && r.producer.at <= |r.producer.frame.data| == r.s.frameBytes)
    && (r.producer.Ready? ==> r.producer.slot < |r.s.staging| && |r.producer.frame.data| == r.s.frameBytes)
    && (r.writer.Writing? ==> r.writer.slot < |r.s.staging| && r.s.count > 0)
    && (r.writer.Advancing? ==> r.s.count > 0)
  }

  ghost function BeginPush(r: Run, frame: Frame): Run
    requires Shape(r)
  {
    // one producer; another size throws
    if !r.producer.Idle? || |frame.data| != r.s.frameBytes then r
    else if !HasRoom(r.s) then r.(s := Dropped(r.s), pushes := r.pushes + 1)
    else r.(s := Reserved(r.s), producer := Copying(NextSlot(r.s), frame, 0), pushes := r.pushes + 1)
  }

  ghost function Produce(r: Run): Run
    requires Shape(r)
  {
    match r.producer
    case Idle => r
    case Copying(slot, frame, at) =>
      if at < |frame.data| then
        r.(s := Staged(r.s, slot, at, frame.data[at]), producer := Copying(slot, frame, at + 1))
      else r.(s := Described(r.s, slot, DescribeFrame(frame)), producer := Ready(slot, frame))
    case Ready(slot, frame) =>
      r.(s := Published(r.s), producer := Idle, accepted := r.accepted + [frame])
  }

  function DescribeFrame(f: Frame): IndexRecord {
    Describe(f.stamp, f.received, f.frameId, |f.data|)
  }

  /** The bytes of a torn record that a write leaves in the index. */
  function TornBytes(landed: Landed): nat {
    if !landed.PartRecord? then 0 else if landed.bytes < RECORD_SIZE then landed.bytes else RECORD_SIZE - 1
  }

  ghost function Write(r: Run, landed: Landed): Run
    requires Shape(r)
  {
    match r.writer
    case Waiting =>
      if r.s.published > 0 && r.s.count > 0 then r.(writer := Writing(r.s.head))
      else if !r.s.running then r.(writer := Exited, late := !r.producer.Idle?)
      else r
    case Writing(slot) =>
      r.(s := WroteFrame(r.s, slot, landed), writer := Advancing(slot, landed.All?),
         keptAt := if landed.All? then r.keptAt + [r.done] else r.keptAt,
         failures := if landed.All? then r.failures else r.failures + 1, torn := r.torn + TornBytes(landed))
    case Advancing(_, ok) => r.(s := Advanced(r.s, ok), writer := Waiting, done := r.done + 1)
    case Exited => r
  }

  ghost function Next(r: Run, a: Action): Run
    requires Shape(r)
  {
    match a
    case Push(frame) => BeginPush(r, frame)
    case ProducerStep => Produce(r)
    case WriterStep(landed) => Write(r, landed)
    case Stop => r.(s := r.s.(running := false))
    case Cut => if r.writer.Exited? then r.(s := Truncated(r.s), cut := true) else r
  }

  /** The slot of the `k`-th accepted frame. */
  function Slot(k: nat, n: nat): (slot: nat)
    requires n > 0
    ensures slot < n
  {
    k % n
  }

  lemma SlotNext(k: nat, n: nat)
    requires n > 0
    ensures Slot(k + 1, n) == (Slot(k, n) + 1) % n
  {
    RingStep(k, n);
  }

  // ------------------------------------------------------- what every run keeps

  /** Bytes of a frame that are recorded: its size as the index can express it. */
  function Recorded(frameBytes: nat): (n: nat)
    ensures n <= frameBytes
  {
    Wrap32(frameBytes)
  }

  /** The spacing of payloads in the data file. */
  function Stride(frameBytes: nat): (n: nat)
    ensures Recorded(frameBytes) <= n
  {
    RoundUpCovers(Recorded(frameBytes));
    RoundUp(Recorded(frameBytes), RECORD_ALIGN)
  }

  function Place(i: nat, stride: nat): nat {
    i * stride
  }

  lemma PlaceNext(i: nat, stride: nat)
    ensures Place(i + 1, stride) == Place(i, stride) + stride
  {
  }

  lemma PlaceMono(i: nat, j: nat, stride: nat)
    requires i < j
    ensures Place(i, stride) + stride <= Place(j, stride)
  {
    MulMono(i + 1, j, stride);
  }

  /** Reserved slots are the accepted frames the writer is not through with and the
      one being pushed; slots follow each other around the ring. */
  ghost predicate RingOk(r: Run)
    requires Shape(r)
  {
    var n := |r.s.staging|;
    && r.done <= |r.accepted|
    && r.s.head == Slot(r.done, n)
    && r.s.published == |r.accepted| - r.done
    && r.s.count == r.s.published + (if r.producer.Idle? then 0 else 1)
    && r.s.count <= n
    && (!r.producer.Idle? ==> r.producer.slot == Slot(|r.accepted|, n))
    && (r.writer.Writing? ==> r.writer.slot == r.s.head && r.s.published > 0)
    && (r.writer.Advancing? ==> r.s.published > 0)
    && (r.writer.Exited? ==> !r.s.running && r.s.published == if r.late && r.producer.Idle? then 1 else 0)
    && (r.writer.Exited? && !r.late ==> r.producer.Idle?)
  }

  ghost predicate Holds(s: Stream, slot: nat, f: Frame) {
    slot < |s.staging| == |s.meta| && s.staging[slot] == f.data && s.meta[slot] == DescribeFrame(f)
  }

  /** Staged frames stay what was pushed. */
  ghost predicate StagedOk(r: Run)
    requires Shape(r)
  {
    && (forall k: nat | r.done <= k < |r.accepted| :: Holds(r.s, Slot(k, |r.s.staging|), r.accepted[k]))
    && (forall k: nat | k < |r.accepted| :: |r.accepted[k].data| == r.s.frameBytes)
    && (r.producer.Copying? ==>
          r.s.staging[r.producer.slot][..r.producer.at] == r.producer.frame.data[..r.producer.at])
    && (r.producer.Ready? ==> Holds(r.s, r.producer.slot, r.producer.frame))
  }

  /** How many accepted frames the writer has tried to write. */
  function Tried(r: Run): nat {
    r.done + if r.writer.Advancing? then 1 else 0
  }

  /** The record of frame `f` as the `i`-th in the files. */
  function RecordOf(f: Frame, i: nat, frameBytes: nat): IndexRecord {
    IndexRecord(f.stamp, f.received, Wrap64(Place(i, Stride(frameBytes))), Recorded(frameBytes), f.frameId)
  }

  ghost predicate KeptOk(r: Run) {
    && |r.keptAt| + r.failures == Tried(r) <= |r.accepted|
    && (forall i: nat | i < |r.keptAt| :: r.keptAt[i] < Tried(r))
    && (forall i: nat, j: nat | i < j < |r.keptAt| :: r.keptAt[i] < r.keptAt[j])
    && (r.failures == 0 ==> r.torn == 0 && forall i: nat | i < |r.keptAt| :: r.keptAt[i] == i)
  }

  ghost predicate KeptInRange(accepted: seq<Frame>, keptAt: seq<nat>) {
    forall i: nat | i < |keptAt| :: keptAt[i] < |accepted|
  }

  /** The frames in the files, in file order. */
  function Kept(accepted: seq<Frame>, keptAt: seq<nat>): (kept: seq<Frame>)
    requires KeptInRange(accepted, keptAt)
    ensures |kept| == |keptAt|
  {
    seq(|keptAt|, i requires 0 <= i < |keptAt| => accepted[keptAt[i]])
  }

  function Records(kept: seq<Frame>, frameBytes: nat): (records: seq<IndexRecord>)
    ensures |records| == |kept|
  {
    seq(|kept|, i requires 0 <= i < |kept| => RecordOf(kept[i], i, frameBytes))
  }

  /** The `i`-th payload lies on the grid. */
  ghost predicate PayloadAt(data: Buffer, frameBytes: nat, i: nat, f: Frame) {
    var from, n := Place(i, Stride(frameBytes)), Recorded(frameBytes);
    |f.data| == frameBytes && from + n <= |data| && data[from..from + n] == f.data[..n]
  }

  /** The files hold these frames, and nothing else counts as long as no record was
      torn. */
  ghost predicate FilesHold(s: Stream, kept: seq<Frame>, torn: nat) {
    && |s.index| == RECORD_SIZE * |kept| + torn
    && (torn == 0 ==> s.index == EncodeAll(Records(kept, s.frameBytes)))
    && s.offset == Place(|kept|, Stride(s.frameBytes)) && s.written == |kept|
    && (forall i: nat | i < |kept| :: PayloadAt(s.data, s.frameBytes, i, kept[i]))
    && s.firstStamp == (if kept == [] then 0 else kept[0].stamp)
  }

  ghost predicate FilesOk(r: Run) {
    && KeptInRange(r.accepted, r.keptAt) && FilesHold(r.s, Kept(r.accepted, r.keptAt), r.torn)
    && (r.cut ==> r.writer.Exited? && |r.s.data| == r.s.offset)
  }

  ghost predicate CountsOk(r: Run) {
    && r.pushes == |r.accepted| + r.s.drops + (if r.producer.Idle? then 0 else 1)
    && (r.s.failed || (r.writer.Advancing? && !r.writer.ok) ==> r.failures > 0)
    && (r.failures > 0 ==> r.s.failed || (r.writer.Advancing? && !r.writer.ok))
  }

  ghost predicate Inv(r: Run) {
    Shape(r) && RingOk(r) && StagedOk(r) && KeptOk(r) && FilesOk(r) && CountsOk(r)
  }

  lemma StartInv(frameBytes: nat, staging: nat)
    requires staging > 0
    ensures Inv(Start(frameBytes, staging))
  {
    ModIs(0, 0, 0, staging);
  }

  // ---- pushing

  /** The slot a push gets is behind everything staged. */
  lemma PushSlot(r: Run)
    requires Shape(r) && RingOk(r) && r.producer.Idle?
    ensures NextSlot(r.s) == Slot(|r.accepted|, |r.s.staging|)
  {
    RingAdd(r.done, r.s.published, |r.s.staging|);
  }

  /** Nothing but the ring and the producer's history has changed. */
  ghost predicate FilesUntouched(r: Run, u: Run) {
    && r.accepted <= u.accepted && u.keptAt == r.keptAt && u.failures == r.failures
    && u.torn == r.torn && Tried(u) == Tried(r)
    && u.s.frameBytes == r.s.frameBytes && u.s.data == r.s.data && u.s.index == r.s.index
    && u.s.offset == r.s.offset && u.s.written == r.s.written && u.s.firstStamp == r.s.firstStamp
    && u.cut == r.cut && (r.writer.Exited? ==> u.writer.Exited?)
  }

  lemma SameFiles(r: Run, u: Run)
    requires FilesOk(r) && KeptOk(r) && FilesUntouched(r, u)
    ensures FilesOk(u) && KeptOk(u)
  {
    assert Kept(u.accepted, u.keptAt) == Kept(r.accepted, r.keptAt);
  }

  lemma BeginRing(r: Run, frame: Frame)
    requires Shape(r) && RingOk(r)
    ensures Shape(BeginPush(r, frame)) && RingOk(BeginPush(r, frame))
  {
    if r.producer.Idle? { PushSlot(r); }
    hide Slot, NextSlot;
  }

  lemma BeginStaged(r: Run, frame: Frame)
    requires Shape(r) && StagedOk(r)
    ensures Shape(BeginPush(r, frame)) ==> StagedOk(BeginPush(r, frame))
  {
    hide Slot;
  }

  lemma BeginRest(r: Run, frame: Frame)
    requires Shape(r) && CountsOk(r)
    ensures FilesUntouched(r, BeginPush(r, frame)) && CountsOk(BeginPush(r, frame))
  {
  }

  lemma BeginKeeps(r: Run, frame: Frame)
    requires Inv(r)
    ensures Inv(BeginPush(r, frame))
  {
    hide Shape, RingOk, StagedOk, FilesOk, KeptOk, CountsOk, FilesUntouched, BeginPush;
    BeginRing(r, frame);
    BeginStaged(r, frame);
    BeginRest(r, frame);
    SameFiles(r, BeginPush(r, frame));
  }

  /** A slot being filled holds no staged frame. */
  lemma FillElsewhere(r: Run, k: nat)
    requires Shape(r) && RingOk(r) && !r.producer.Idle? && r.done <= k < |r.accepted|
    ensures Slot(k, |r.s.staging|) != r.producer.slot
  {
    RingApart(k, |r.accepted|, |r.s.staging|);
  }

  lemma CopyStaged(r: Run)
    requires Shape(r) && RingOk(r) && StagedOk(r) && r.producer.Copying?
    ensures Shape(Produce(r)) && StagedOk(Produce(r))
  {
    var u := Produce(r);
    var slot, frame, at := r.producer.slot, r.producer.frame, r.producer.at;
    forall k: nat | r.done <= k < |r.accepted| ensures Holds(u.s, Slot(k, |u.s.staging|), u.accepted[k]) {
      FillElsewhere(r, k);
      assert Holds(r.s, Slot(k, |r.s.staging|), r.accepted[k]);
    }
    hide Slot;
    if at < |frame.data| {
      assert u.s.staging[slot][..at + 1] == r.s.staging[slot][..at] + [frame.data[at]];
      assert frame.data[..at + 1] == frame.data[..at] + [frame.data[at]];
    } else {
      assert frame.data[..at] == frame.data && r.s.staging[slot][..at] == r.s.staging[slot];
    }
  }

  lemma PublishStaged(r: Run)
    requires Shape(r) && RingOk(r) && StagedOk(r) && r.producer.Ready?
    ensures Shape(Produce(r)) && StagedOk(Produce(r))
  {
    hide Slot;
  }

  lemma ProduceRing(r: Run)
    requires Shape(r) && RingOk(r) && Shape(Produce(r))
    ensures RingOk(Produce(r))
  {
    hide Slot;
  }

  lemma ProduceRest(r: Run)
    requires Shape(r) && CountsOk(r)
    ensures FilesUntouched(r, Produce(r)) && CountsOk(Produce(r))
  {
  }

  lemma ProduceStaged(r: Run)
    requires Shape(r) && RingOk(r) && StagedOk(r)
    ensures Shape(Produce(r)) && StagedOk(Produce(r))
  {
    match r.producer
    case Idle =>
    case Copying(_, _, _) => CopyStaged(r);
    case Ready(_, _) => PublishStaged(r);
  }

  lemma ProduceKeeps(r: Run)
    requires Inv(r)
    ensures Inv(Produce(r))
  {
    hide Shape, RingOk, StagedOk, FilesOk, KeptOk, CountsOk, FilesUntouched, Produce;
    ProduceStaged(r);
    ProduceRing(r);
    ProduceRest(r);
    SameFiles(r, Produce(r));
  }

  // ---- writing

  lemma TakeRing(r: Run, landed: Landed)
    requires Shape(r) && RingOk(r) && StagedOk(r) && CountsOk(r) && (r.writer.Waiting? || r.writer.Exited?)
    ensures var u := Write(r, landed);
            Shape(u) && RingOk(u) && StagedOk(u) && CountsOk(u) && FilesUntouched(r, u)
  {
    hide Slot;
    assert Write(r, landed).s == r.s;
  }

  lemma TakeKeeps(r: Run, landed: Landed)
    requires Inv(r) && (r.writer.Waiting? || r.writer.Exited?)
    ensures Inv(Write(r, landed))
  {
    hide Shape, RingOk, StagedOk, FilesOk, KeptOk, CountsOk, FilesUntouched, Write;
    TakeRing(r, landed);
    SameFiles(r, Write(r, landed));
  }

  /** The slot being written holds the frame that is next. */
  lemma WritesNext(r: Run)
    requires Shape(r) && RingOk(r) && StagedOk(r) && r.writer.Writing?
    ensures r.done < |r.accepted| && Holds(r.s, r.writer.slot, r.accepted[r.done])
    ensures |r.accepted[r.done].data| == r.s.frameBytes
    ensures Payload(r.s, r.writer.slot) == r.accepted[r.done].data[..Recorded(r.s.frameBytes)]
  {
    hide Slot;
    assert Holds(r.s, Slot(r.done, |r.s.staging|), r.accepted[r.done]);
  }

  lemma AppendIndex(s: Stream, kept: seq<Frame>, f: Frame)
    requires FilesHold(s, kept, 0) && |f.data| == s.frameBytes
    ensures EncodeAll(Records(kept + [f], s.frameBytes))
            == s.index + Encode(DescribeFrame(f).(offset := Wrap64(s.offset)))
  {
    var records := Records(kept + [f], s.frameBytes);
    assert records[..|kept|] == Records(kept, s.frameBytes);
    assert records[|kept|] == DescribeFrame(f).(offset := Wrap64(s.offset));
  }

  /** A frame that lands entirely goes on the grid behind the others. */
  lemma AppendFile(s: Stream, u: Stream, kept: seq<Frame>, torn: nat, f: Frame, payload: Buffer)
    requires FilesHold(s, kept, torn) && |f.data| == s.frameBytes && payload == f.data[..Recorded(s.frameBytes)]
    requires u.frameBytes == s.frameBytes && u.data == Written(s.data, s.offset, payload)
    requires u.index == s.index + Encode(DescribeFrame(f).(offset := Wrap64(s.offset)))
    requires u.offset == s.offset + RoundUp(Recorded(s.frameBytes), RECORD_ALIGN) && u.written == s.written + 1
    requires u.firstStamp == if s.written == 0 then f.stamp else s.firstStamp
    ensures FilesHold(u, kept + [f], torn)
  {
    if torn == 0 { AppendIndex(s, kept, f); }
    PlaceNext(|kept|, Stride(s.frameBytes));
    AppendPayload(s, kept, torn, f, payload);
    hide Written, EncodeAll, Encode, Place, PayloadAt, Wrap64;
    forall i: nat | i < |kept + [f]| ensures PayloadAt(u.data, u.frameBytes, i, (kept + [f])[i]) {
      if i < |kept| { assert (kept + [f])[i] == kept[i]; }
    }
  }

  /** Its payload is in place, and so are the others. */
  lemma AppendPayload(s: Stream, kept: seq<Frame>, torn: nat, f: Frame, payload: Buffer)
    requires FilesHold(s, kept, torn) && |f.data| == s.frameBytes && payload == f.data[..Recorded(s.frameBytes)]
    ensures var data := Written(s.data, s.offset, payload);
            && PayloadAt(data, s.frameBytes, |kept|, f)
            && forall i: nat | i < |kept| :: PayloadAt(data, s.frameBytes, i, kept[i])
  {
    WrittenReads(s.data, s.offset, payload, 0, 0);
    SpoilFile(s, s.(data := Written(s.data, s.offset, payload)), kept, torn, payload);
    hide Written, EncodeAll, Place;
  }

  /** A write that fails touches no payload that counts. */
  lemma SpoilFile(s: Stream, u: Stream, kept: seq<Frame>, torn: nat, bytes: Buffer)
    requires FilesHold(s, kept, torn)
    requires u == s.(data := Written(s.data, s.offset, bytes), index := u.index) && s.index <= u.index
    ensures FilesHold(u, kept, torn + |u.index| - |s.index|)
  {
    var stride := Stride(s.frameBytes);
    forall i: nat | i < |kept| ensures PayloadAt(u.data, u.frameBytes, i, kept[i]) {
      assert PayloadAt(s.data, s.frameBytes, i, kept[i]);
      PlaceMono(i, |kept|, stride);
      WrittenReads(s.data, s.offset, bytes, Place(i, stride), Place(i, stride) + Recorded(s.frameBytes));
    }
  }

  lemma WriteKept(r: Run, landed: Landed)
    requires Shape(r) && KeptOk(r) && r.writer.Writing? && r.done < |r.accepted|
    ensures KeptOk(Write(r, landed))
  {
    hide WroteFrame;
  }

  lemma WriteFiles(r: Run, landed: Landed)
    requires Shape(r) && FilesOk(r) && r.writer.Writing? && r.done < |r.accepted| && !r.cut
    requires var f := r.accepted[r.done];
             |f.data| == r.s.frameBytes && r.s.meta[r.writer.slot] == DescribeFrame(f)
             && Payload(r.s, r.writer.slot) == f.data[..Recorded(r.s.frameBytes)]
    ensures FilesOk(Write(r, landed))
  {
    var u := Write(r, landed);
    var f := r.accepted[r.done];
    var kept := Kept(r.accepted, r.keptAt);
    var payload := Payload(r.s, r.writer.slot);
    if landed.All? {
      AppendFile(r.s, u.s, kept, r.torn, f, payload);
      assert Kept(u.accepted, u.keptAt) == kept + [f];
    } else {
      assert |u.s.index| - |r.s.index| == TornBytes(landed);
      SpoilFile(r.s, u.s, kept, r.torn, if landed.Part? then FirstBytes(payload, landed.bytes) else payload);
      assert Kept(u.accepted, u.keptAt) == kept;
    }
  }

  /** Writing a frame is about the files alone. */
  lemma WroteKeeps(s: Stream, slot: nat, landed: Landed)
    requires slot < |s.staging| == |s.meta|
    ensures var u := WroteFrame(s, slot, landed);
            && u.staging == s.staging && u.meta == s.meta && u.frameBytes == s.frameBytes
            && u.head == s.head && u.count == s.count && u.published == s.published
            && u.running == s.running && u.drops == s.drops && u.failed == s.failed
  {
    hide Written, Encode, RoundUp, Wrap64;
  }

  lemma WriteRing(r: Run, landed: Landed)
    requires Shape(r) && RingOk(r) && StagedOk(r) && CountsOk(r) && r.writer.Writing?
    ensures var u := Write(r, landed); Shape(u) && RingOk(u) && StagedOk(u) && CountsOk(u)
  {
    WroteKeeps(r.s, r.writer.slot, landed);
    hide Slot, WroteFrame;
  }

  lemma WriteKeeps(r: Run, landed: Landed)
    requires Inv(r) && r.writer.Writing?
    ensures Inv(Write(r, landed))
  {
    WritesNext(r);
    assert Holds(r.s, r.writer.slot, r.accepted[r.done]);
    WriteFiles(r, landed);
    hide Shape, RingOk, StagedOk, FilesOk, KeptOk, CountsOk, Write;
    WriteKept(r, landed);
    WriteRing(r, landed);
  }

  lemma AdvanceRing(r: Run, landed: Landed)
    requires Shape(r) && RingOk(r) && StagedOk(r) && CountsOk(r) && r.writer.Advancing?
    ensures var u := Write(r, landed); Shape(u) && RingOk(u) && StagedOk(u) && CountsOk(u)
  {
    SlotNext(r.done, |r.s.staging|);
    hide Slot;
  }

  lemma AdvanceKeeps(r: Run, landed: Landed)
    requires Inv(r) && r.writer.Advancing?
    ensures Inv(Write(r, landed))
  {
    AdvanceRing(r, landed);
    hide Shape, RingOk, StagedOk, FilesOk, KeptOk, CountsOk;
    assert FilesUntouched(r, Write(r, landed));
    SameFiles(r, Write(r, landed));
  }

  lemma CutFiles(r: Run)
    requires FilesOk(r) && r.writer.Exited?
    ensures FilesOk(r.(s := Truncated(r.s), cut := true))
  {
    var u := r.(s := Truncated(r.s), cut := true);
    var kept := Kept(r.accepted, r.keptAt);
    forall i: nat | i < |kept| ensures PayloadAt(u.s.data, u.s.frameBytes, i, kept[i]) {
      assert PayloadAt(r.s.data, r.s.frameBytes, i, kept[i]);
      PlaceMono(i, |kept|, Stride(r.s.frameBytes));
      var from, n := Place(i, Stride(r.s.frameBytes)), Recorded(r.s.frameBytes);
      assert from + n <= r.s.offset && u.s.data[from..from + n] == r.s.data[from..from + n];
    }
  }

  /** close's flag and its cut leave the ring alone. */
  lemma CloseRing(r: Run, u: Run)
    requires Shape(r) && RingOk(r) && StagedOk(r) && CountsOk(r) && KeptOk(r)
    requires u == r.(s := r.s.(running := false, data := u.s.data), cut := u.cut)
    ensures Shape(u) && RingOk(u) && StagedOk(u) && CountsOk(u) && KeptOk(u)
  {
    hide Slot;
  }

  lemma CloseKeeps(r: Run, a: Action)
    requires Inv(r) && (a.Stop? || (a.Cut? && r.writer.Exited?))
    ensures Inv(Next(r, a))
  {
    var u := Next(r, a);
    CloseRing(r, u);
    if a.Cut? { CutFiles(r); } else { SameFiles(r, u); }
    hide Shape, RingOk, StagedOk, FilesOk, KeptOk, CountsOk;
  }

  lemma NextKeeps(r: Run, a: Action)
    requires Inv(r)
    ensures Inv(Next(r, a))
  {
    hide Inv;
    match a
    case Push(frame) => BeginKeeps(r, frame);
    case ProducerStep => ProduceKeeps(r);
    case Stop => CloseKeeps(r, a);
    case Cut => if r.writer.Exited? { CloseKeeps(r, a); }
    case WriterStep(landed) =>
      match r.writer
      case Writing(_) => WriteKeeps(r, landed);
      case Advancing(_, _) => AdvanceKeeps(r, landed);
      case _ => TakeKeeps(r, landed);
  }

  // ------------------------------------------------------------ main theorems

  ghost function Runs(frameBytes: nat, staging: nat, acts: seq<Action>): (r: Run)
    requires staging > 0
    ensures Shape(r)
    decreases |acts|, 0
  {
    if acts == [] then
      StartInv(frameBytes, staging);
      Start(frameBytes, staging)
    else
      var before := Runs(frameBytes, staging, acts[..|acts| - 1]);
      RunsInv(frameBytes, staging, acts[..|acts| - 1]);
      NextKeeps(before, acts[|acts| - 1]);
      Next(before, acts[|acts| - 1])
  }

  lemma {:induction false} RunsInv(frameBytes: nat, staging: nat, acts: seq<Action>)
    requires staging > 0
    ensures Inv(Runs(frameBytes, staging, acts))
    decreases |acts|, 1
  {
    hide Inv, Next;
    if acts == [] {
      StartInv(frameBytes, staging);
    } else {
      var before := acts[..|acts| - 1];
      RunsInv(frameBytes, staging, before);
      NextKeeps(Runs(frameBytes, staging, before), acts[|acts| - 1]);
    }
  }

  /** The writer never reads the slot a copy is running into. */
  lemma WriterOffTheCopy(frameBytes: nat, staging: nat, acts: seq<Action>)
    requires staging > 0
    requires var r := Runs(frameBytes, staging, acts); !r.producer.Idle? && r.writer.Writing?
    ensures var r := Runs(frameBytes, staging, acts); r.producer.slot != r.writer.slot
  {
    RunsInv(frameBytes, staging, acts);
    var r := Runs(frameBytes, staging, acts);
    FillElsewhere(r, r.done);
  }

  /** Every push that found room or not is accounted for. A frame whose write
      failed is in no counter: neither written nor dropped. */
  lemma PushesAccounted(frameBytes: nat, staging: nat, acts: seq<Action>)
    requires staging > 0
    ensures var r := Runs(frameBytes, staging, acts);
            r.pushes == r.s.written + r.s.drops + r.failures + (|r.accepted| - Tried(r))
                        + (if r.producer.Idle? then 0 else 1)
  {
    RunsInv(frameBytes, staging, acts);
  }

  /** The staging ring is there to be filled: in every run a push of the right size gets
      a slot exactly if the stream runs, no write has failed, and fewer frames than it
      has slots are staged. */
  lemma PushGetsSlot(frameBytes: nat, staging: nat, acts: seq<Action>, frame: Frame)
    requires staging > 0 && |frame.data| == frameBytes && Runs(frameBytes, staging, acts).producer.Idle?
    ensures var r := Runs(frameBytes, staging, acts);
            var u := Next(r, Push(frame));
            if r.s.running && !r.s.failed && |r.accepted| - r.done < |r.s.staging| then
              u.producer.Copying? && u.producer.frame == frame && u.s.drops == r.s.drops
            else u.producer.Idle? && u.s.drops == r.s.drops + 1
  {
    RunsInv(frameBytes, staging, acts);
    SizesStay(frameBytes, staging, acts);
    var r := Runs(frameBytes, staging, acts);
    assert RingOk(r);
    hide Runs, Inv, StagedOk, FilesOk, KeptOk;
  }

  lemma {:induction false} SizesStay(frameBytes: nat, staging: nat, acts: seq<Action>)
    requires staging > 0
    ensures Runs(frameBytes, staging, acts).s.frameBytes == frameBytes
  {
    hide Inv, Next;
    if acts != [] {
      var before := acts[..|acts| - 1];
      SizesStay(frameBytes, staging, before);
      NextSize(Runs(frameBytes, staging, before), acts[|acts| - 1]);
    }
  }

  lemma NextSize(r: Run, a: Action)
    requires Shape(r)
    ensures Next(r, a).s.frameBytes == r.s.frameBytes
  {
  }

  /** The `i`-th record of the files reads back as the frame it is of. */
  ghost predicate ReadsAs(s: Stream, records: seq<IndexRecord>, i: nat, f: Frame)
    requires i < |records|
  {
    && records[i].stamp == f.stamp && records[i].received == f.received && records[i].frameId == f.frameId
    && records[i].offset == Place(i, Stride(s.frameBytes))
    && RecordingReading.Payload(s.data, records[i]) == Some(FirstBytes(f.data, Recorded(s.frameBytes)))
  }

  /** At any moment, even if the run is cut short here: the index is refused exactly if
      the torn records in it are no whole number of records, and it has as many records as
      frames were written exactly if no record was torn. Then each names a payload that is
      entirely in the data file, on the grid, and is that of an accepted frame; the frames
      are in the order they were accepted. */
  lemma RecordingReads(frameBytes: nat, staging: nat, acts: seq<Action>)
    requires staging > 0
    requires Place(|Runs(frameBytes, staging, acts).keptAt|, Stride(frameBytes)) <= 0x1_0000_0000_0000_0000
    ensures var r := Runs(frameBytes, staging, acts);
            var parsed := RecordingReading.ParseIndex(r.s.index);
            && KeptInRange(r.accepted, r.keptAt) && r.s.written == |r.keptAt|
            && (forall i: nat, j: nat | i < j < |r.keptAt| :: r.keptAt[i] < r.keptAt[j])
            && (parsed.None? <==> r.torn % RECORD_SIZE != 0)
            && (parsed.Some? && |parsed.value| == r.s.written <==> r.torn == 0)
            && (r.torn == 0 ==>
                  forall i: nat | i < |r.keptAt| :: ReadsAs(r.s, parsed.value, i, r.accepted[r.keptAt[i]]))
  {
    RunsInv(frameBytes, staging, acts);
    SizesStay(frameBytes, staging, acts);
    var r := Runs(frameBytes, staging, acts);
    assert KeptOk(r) && FilesOk(r);
    hide Runs, Inv, KeptOk, FilesOk, ReadsAs, RecordingReading.ParseIndex, Stride, Place;
    FilesRead(r);
  }

  lemma FilesRead(r: Run)
    requires KeptOk(r) && FilesOk(r)
    requires Place(|r.keptAt|, Stride(r.s.frameBytes)) <= 0x1_0000_0000_0000_0000
    ensures var parsed := RecordingReading.ParseIndex(r.s.index);
            && KeptInRange(r.accepted, r.keptAt) && r.s.written == |r.keptAt|
            && (forall i: nat, j: nat | i < j < |r.keptAt| :: r.keptAt[i] < r.keptAt[j])
            && (parsed.None? <==> r.torn % RECORD_SIZE != 0)
            && (parsed.Some? && |parsed.value| == r.s.written <==> r.torn == 0)
            && (r.torn == 0 ==>
                  forall i: nat | i < |r.keptAt| :: ReadsAs(r.s, parsed.value, i, r.accepted[r.keptAt[i]]))
  {
    hide ReadsAs, RecordingReading.ParseIndex, Stride, Place, EncodeAll;
    IndexCounts(r.s.index, |r.keptAt|, r.torn);
    if r.torn == 0 {
      var kept := Kept(r.accepted, r.keptAt);
      IndexReads(r.s, kept);
      assert forall i: nat | i < |r.keptAt| :: kept[i] == r.accepted[r.keptAt[i]];
    }
  }

  lemma IndexCounts(index: Buffer, whole: nat, torn: nat)
    requires |index| == RECORD_SIZE * whole + torn
    ensures var parsed := RecordingReading.ParseIndex(index);
            (parsed.None? <==> torn % RECORD_SIZE != 0) && (parsed.Some? && |parsed.value| == whole <==> torn == 0)
  {
    assert |index| % RECORD_SIZE == torn % RECORD_SIZE;
  }

  lemma IndexReads(s: Stream, kept: seq<Frame>)
    requires FilesHold(s, kept, 0) && Place(|kept|, Stride(s.frameBytes)) <= 0x1_0000_0000_0000_0000
    ensures var parsed := RecordingReading.ParseIndex(s.index);
            && parsed.Some? && |parsed.value| == |kept|
            && forall i: nat | i < |kept| :: ReadsAs(s, parsed.value, i, kept[i])
  {
    var records := Records(kept, s.frameBytes);
    IndexRoundTrip(records);
    assert |s.index| == RECORD_SIZE * |records|;
    forall i: nat | i < |kept| ensures ReadsAs(s, records, i, kept[i]) {
      PlaceMono(i, |kept|, Stride(s.frameBytes));
      ReadsBack(s, kept, i);
    }
  }

  lemma ReadsBack(s: Stream, kept: seq<Frame>, i: nat)
    requires FilesHold(s, kept, 0) && i < |kept|
    requires Place(i, Stride(s.frameBytes)) + Stride(s.frameBytes) <= 0x1_0000_0000_0000_0000
    ensures ReadsAs(s, Records(kept, s.frameBytes), i, kept[i])
  {
    hide Stride, Place, Wrap64, EncodeAll;
    assert PayloadAt(s.data, s.frameBytes, i, kept[i]);
    OffsetFits(i, s.frameBytes);
  }

  lemma OffsetFits(i: nat, frameBytes: nat)
    requires Place(i, Stride(frameBytes)) + Stride(frameBytes) <= 0x1_0000_0000_0000_0000
    ensures Wrap64(Place(i, Stride(frameBytes))) == Place(i, Stride(frameBytes))
  {
    if Stride(frameBytes) == 0 { assert i * 0 == 0; }
  }

  /** Once the recording has been closed with no push in progress and no failed
      write, the files hold every accepted frame, frame i at i strides, and end
      with the last stride. The payloads are whole exactly if a frame's size fits
      the index's 32 bits. */
  lemma ClosedRecordingIsComplete(frameBytes: nat, staging: nat, acts: seq<Action>, i: nat)
    requires staging > 0
    requires var r := Runs(frameBytes, staging, acts);
             r.cut && !r.late && r.failures == 0 && i < |r.accepted|
             && Place(|r.accepted|, Stride(frameBytes)) <= 0x1_0000_0000_0000_0000
    ensures var r := Runs(frameBytes, staging, acts);
            var parsed := RecordingReading.ParseIndex(r.s.index);
            && parsed.Some? && |parsed.value| == |r.accepted|
            && |r.s.data| == Place(|r.accepted|, Stride(frameBytes))
            && ReadsAs(r.s, parsed.value, i, r.accepted[i])
            && (RecordingReading.Payload(r.s.data, parsed.value[i]) == Some(r.accepted[i].data)
                <==> frameBytes < 0x1_0000_0000)
  {
    RunsInv(frameBytes, staging, acts);
    var r := Runs(frameBytes, staging, acts);
    SizesStay(frameBytes, staging, acts);
    ClosedFacts(r, i);
    RecordingReads(frameBytes, staging, acts);
    WholeIffFits(r.accepted[i].data);
    hide Inv, Runs, Place, Stride, RecordingReading.ParseIndex, KeptInRange;
  }

  lemma ClosedFacts(r: Run, i: nat)
    requires Inv(r) && r.cut && !r.late && r.failures == 0 && i < |r.accepted|
    ensures |r.keptAt| == |r.accepted| && r.keptAt[i] == i && |r.accepted[i].data| == r.s.frameBytes
    ensures |r.s.data| == Place(|r.accepted|, Stride(r.s.frameBytes))
  {
  }

  lemma WholeIffFits(data: Buffer)
    ensures FirstBytes(data, Recorded(|data|)) == data <==> |data| < 0x1_0000_0000
  {
  }

  /** A push that is still copying when the writer leaves succeeds, and its frame is
      never written: exactly such a frame is missing from a closed recording. */
  lemma LatePushIsLost(frameBytes: nat, staging: nat, acts: seq<Action>)
    requires staging > 0
    requires var r := Runs(frameBytes, staging, acts); r.writer.Exited? && r.producer.Idle?
    ensures var r := Runs(frameBytes, staging, acts);
            |r.accepted| == r.s.written + r.failures + if r.late then 1 else 0
  {
    RunsInv(frameBytes, staging, acts);
  }

  // --------------------------------------------------------- promises not kept

  lemma RunsOn(frameBytes: nat, staging: nat, acts: seq<Action>, a: Action)
    requires staging > 0
    ensures Runs(frameBytes, staging, acts + [a]) == Next(Runs(frameBytes, staging, acts), a)
  {
    assert (acts + [a])[..|acts + [a]| - 1] == acts;
  }

  /** A reservation, then the copy of a one-byte frame. */
  lemma CopyOne(staging: nat, acts: seq<Action>, r: Run, f: Frame) returns (all: seq<Action>, u: Run)
    requires staging > 0 && r == Runs(1, staging, acts) && Shape(r) && |f.data| == 1
    requires r.producer.Copying? && r.producer.frame == f && r.producer.at == 0
    ensures u == Runs(1, staging, all) && Shape(u) && u.producer.Idle? && u.accepted == r.accepted + [f]
    ensures u == r.(s := u.s, producer := Idle, accepted := u.accepted)
    ensures u.s == r.s.(staging := u.s.staging, meta := u.s.meta, published := r.s.published + 1)
    ensures |u.s.staging| == |r.s.staging|
  {
    hide Inv, Runs;
    RunsOn(1, staging, acts, ProducerStep);
    var u1 := Next(r, ProducerStep);
    RunsOn(1, staging, acts + [ProducerStep], ProducerStep);
    var u2 := Next(u1, ProducerStep);
    RunsOn(1, staging, acts + [ProducerStep] + [ProducerStep], ProducerStep);
    u := Next(u2, ProducerStep);
    all := acts + [ProducerStep] + [ProducerStep] + [ProducerStep];
  }

  /** A push that overlaps close: it reports success and its frame is lost. */
  lemma LatePushHappens(staging: nat, f: Frame)
    requires staging > 0 && |f.data| == 1
    ensures exists acts :: var r := Runs(1, staging, acts);
              r.late && r.writer.Exited? && r.producer.Idle? && r.accepted == [f] && r.s.written == r.failures == 0
  {
    hide Inv;
    var start := Start(1, staging);
    assert start == Runs(1, staging, []) && Shape(start);
    RunsOn(1, staging, [], Push(f));
    var r1 := Next(start, Push(f));
    assert r1.producer.Copying?;
    RunsOn(1, staging, [] + [Push(f)], Stop);
    var r2 := Next(r1, Stop);
    RunsOn(1, staging, [] + [Push(f)] + [Stop], WriterStep(All));
    var r3 := Next(r2, WriterStep(All));
    assert r3.late && r3.writer.Exited?;
    var all, r := CopyOne(staging, [] + [Push(f)] + [Stop] + [WriterStep(All)], r3, f);
    assert r == Runs(1, staging, all);
  }

  /** Two staged frames. */
  lemma TwoStaged(f: Frame, g: Frame) returns (acts: seq<Action>, r: Run)
    requires |f.data| == |g.data| == 1
    ensures r == Runs(1, 2, acts) && Shape(r) && r.accepted == [f, g] && r.writer.Waiting? && r.producer.Idle?
    ensures r.s.published == r.s.count == 2 && r.s.written == r.s.drops == r.failures == r.torn == 0 && r.pushes == 2
  {
    hide Inv;
    var start := Start(1, 2);
    assert start == Runs(1, 2, []) && Shape(start);
    RunsOn(1, 2, [], Push(f));
    var acts1, r1 := CopyOne(2, [] + [Push(f)], Next(start, Push(f)), f);
    RunsOn(1, 2, acts1, Push(g));
    acts, r := CopyOne(2, acts1 + [Push(g)], Next(r1, Push(g)), g);
  }

  /** After a failed write the writer goes on: here the next frame is written, behind
      what the failed write left of a record, and the failed frame is counted nowhere. */
  lemma WritesAfterFailure(f: Frame, g: Frame, left: nat)
    requires |f.data| == |g.data| == 1 && left < RECORD_SIZE
    ensures exists acts :: var r := Runs(1, 2, acts);
              r.s.failed && r.s.written == 1 && r.s.drops == 0 && r.pushes == 2 && r.s.published == 0 && r.torn == left
  {
    hide Inv, Runs, Encode, RoundUp, Written, FirstBytes, Wrap64;
    var acts, r := TwoStaged(f, g);
    var step := WriterStep(PartRecord(left));
    RunsOn(1, 2, acts, step);
    var r1, acts1 := Next(r, step), acts + [step];
    RunsOn(1, 2, acts1, step);
    var r2, acts2 := Next(r1, step), acts1 + [step];
    RunsOn(1, 2, acts2, step);
    var r3, acts3 := Next(r2, step), acts2 + [step];
    assert r3.s.failed && r3.writer.Waiting? && r3.s.published == r3.s.count == 1 && r3.torn == left;
    WriteNext(acts3, r3, left);
  }

  lemma WriteNext(acts: seq<Action>, r: Run, left: nat)
    requires r == Runs(1, 2, acts) && Shape(r) && r.writer.Waiting? && r.s.published == r.s.count == 1
    requires r.s.failed && r.s.written == 0 && r.s.drops == 0 && r.pushes == 2 && r.torn == left
    ensures exists acts :: var r := Runs(1, 2, acts);
              r.s.failed && r.s.written == 1 && r.s.drops == 0 && r.pushes == 2 && r.s.published == 0 && r.torn == left
  {
    hide Inv, Runs, Encode, RoundUp, Written, FirstBytes, Wrap64;
    RunsOn(1, 2, acts, WriterStep(All));
    var r1, acts1 := Next(r, WriterStep(All)), acts + [WriterStep(All)];
    RunsOn(1, 2, acts1, WriterStep(All));
    var r2, acts2 := Next(r1, WriterStep(All)), acts1 + [WriterStep(All)];
    RunsOn(1, 2, acts2, WriterStep(All));
    var r3, acts3 := Next(r2, WriterStep(All)), acts2 + [WriterStep(All)];
    assert r3 == Runs(1, 2, acts3);
  }
}
