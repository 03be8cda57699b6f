/** One camera's writer: a bounded ring of staged frames in front of a writer
    thread that appends payloads to a data file and records to an index. */
module StreamWriting {
  import opened Options
  import opened Bytes
  import opened Cdr
  import opened RecordingFormat

  datatype Stream = Stream(
    frameBytes: nat, staging: seq<Buffer>, meta: seq<IndexRecord>,
    head: nat, count: int, published: int, running: bool, failed: bool,
    offset: nat, data: Buffer, index: Buffer,
    written: nat, drops: nat, bytesWritten: nat, peak: int, firstStamp: u64, lastStamp: u64)
  {
    ghost predicate Shape() {
      && |staging| == |meta| >= 1 && head < |staging| && 0 <= count
      && forall i | 0 <= i < |staging| :: |staging[i]| == frameBytes
    }
  }

  /** How much of a frame reaches the files: all of it, some bytes of the payload,
      or the payload and some bytes of its record, perhaps none. */
  datatype Landed = All | Part(bytes: nat) | PartRecord(bytes: nat)

  // ------------------------------------------------------ the critical sections

  predicate HasRoom(s: Stream) {
    s.running && !s.failed && s.count != |s.staging|
  }

  function Dropped(s: Stream): Stream {
    s.(drops := s.drops + 1)
  }

  function Higher(x: int, y: int): int {
    if x > y then x else y
  }

  function Reserved(s: Stream): Stream {
    s.(count := s.count + 1, peak := Higher(s.count + 1, s.peak))
  }

  /** The slot a reservation gets. */
  function NextSlot(s: Stream): (slot: nat)
    requires s.Shape()
    ensures slot < |s.staging|
  {
    (s.head + s.count) % |s.staging|
  }

  /** One byte of the copy. */
  function Staged(s: Stream, slot: nat, at: nat, b: byte): Stream
    requires slot < |s.staging| && at < |s.staging[slot]|
  {
    var row: Buffer := s.staging[slot][at := b];
    s.(staging := s.staging[slot := row])
  }

  /** The whole copy. */
  function Filled(s: Stream, slot: nat, data: Buffer): Stream
    requires slot < |s.staging|
  {
    s.(staging := s.staging[slot := data])
  }

  /** The record of a staged frame; the writer fills in the offset. */
  function Describe(stamp: u64, received: u64, frameId: u32, bytes: nat): IndexRecord {
    IndexRecord(stamp, received, 0, Wrap32(bytes), frameId)
  }

  function Described(s: Stream, slot: nat, r: IndexRecord): Stream
    requires slot < |s.meta|
  {
    s.(meta := s.meta[slot := r])
  }

  function Published(s: Stream): Stream {
    s.(published := s.published + 1)
  }

  /** What of a staged frame is written: as many bytes as its record says. */
  function Payload(s: Stream, slot: nat): Buffer
    requires slot < |s.staging| == |s.meta|
  {
    if s.meta[slot].bytes <= |s.staging[slot]| then s.staging[slot][..s.meta[slot].bytes] else s.staging[slot]
  }

  /** What an append of a record leaves that fails after `n` bytes. */
  function TornRecord(record: IndexRecord, n: nat): (torn: Buffer)
    ensures |torn| == if n < RECORD_SIZE then n else RECORD_SIZE - 1
  {
    Encode(record)[..if n < RECORD_SIZE then n else RECORD_SIZE - 1]
  }

  function FirstBytes(b: Buffer, n: nat): Buffer {
    if n <= |b| then b[..n] else b
  }

  /** write_frame. */
  function WroteFrame(s: Stream, slot: nat, landed: Landed): Stream
    requires slot < |s.staging| == |s.meta|
  {
    var record := s.meta[slot].(offset := Wrap64(s.offset));
    var payload := Payload(s, slot);
    match landed
    case Part(n) => s.(data := Written(s.data, s.offset, FirstBytes(payload, n)))
    case PartRecord(n) =>
      s.(data := Written(s.data, s.offset, payload), index := s.index + TornRecord(record, n))
    case All => Indexed(s.(data := Written(s.data, s.offset, payload)), record)
  }

  /** Its payload is in place: the record is appended and the frame counts. */
  function Indexed(s: Stream, record: IndexRecord): Stream {
    s.(index := s.index + Encode(record), offset := s.offset + RoundUp(record.bytes, RECORD_ALIGN),
       firstStamp := if s.written == 0 then record.stamp else s.firstStamp, lastStamp := record.stamp,
       bytesWritten := s.bytesWritten + record.bytes, written := s.written + 1)
  }

  function Advanced(s: Stream, ok: bool): Stream
    requires |s.staging| > 0
  {
    s.(head := (s.head + 1) % |s.staging|, count := s.count - 1, published := s.published - 1,
       failed := s.failed || !ok)
  }

  /** close, after the join. */
  function Truncated(s: Stream): Stream {
    s.(data := Resized(s.data, s.offset))
  }

  function Opened(frameBytes: nat, staging: nat): Stream {
    Stream(frameBytes, seq(staging, i => Zeros(frameBytes)), seq(staging, i => IndexRecord(0, 0, 0, 0, 0)),
           0, 0, 0, true, false, 0, [], [], 0, 0, 0, 0, 0, 0)
  }

  // ------------------------------------------------------------------ the code

  datatype PushOutcome = Accepted | NoRoom | WrongSize

  class StreamWriter {
    const frameBytes: nat
    const frames: nat
    const staging: array2<byte>
    const meta: array<IndexRecord>
    var head: nat
    var count: int
    var published: int
    var running: bool
    var failed: bool
    var offset: nat
    var data: Buffer
    var index: Buffer
    var written: nat
    var drops: nat
    var bytesWritten: nat
    var peak: int
    var firstStamp: u64
    var lastStamp: u64

    ghost function Row(slot: nat): Buffer
      requires slot < staging.Length0 && staging.Length1 == frameBytes
      reads staging
    {
      seq(frameBytes, j requires 0 <= j < frameBytes reads staging => staging[slot, j])
    }

    ghost function Rows(): seq<Buffer>
      requires staging.Length0 == frames && staging.Length1 == frameBytes
      reads staging
    {
      seq(frames, i requires 0 <= i < frames && staging.Length0 == frames && staging.Length1 == frameBytes
                    reads staging => Row(i))
    }

    ghost predicate Valid()
      reads this
    {
      && frames >= 1 && staging.Length0 == frames && staging.Length1 == frameBytes && meta.Length == frames
      && head < frames && 0 <= count
    }

    ghost function View(): (s: Stream)
      requires Valid()
      reads this, staging, meta
      ensures s.Shape()
    {
      Stream(frameBytes, Rows(), meta[..], head, count, published, running, failed, offset, data, index,
             written, drops, bytesWritten, peak, firstStamp, lastStamp)
    }

    /** Empty frames and an empty ring are refused before this. */
    constructor (frameBytes: nat, frames: nat)
      requires frameBytes > 0 && frames > 0
      ensures Valid() && View() == Opened(frameBytes, frames)
      ensures fresh(staging) && fresh(meta)
    {
      this.frameBytes, this.frames := frameBytes, frames;
      staging := new byte[frames, frameBytes]((i, j) => 0);
      meta := new IndexRecord[frames](i => IndexRecord(0, 0, 0, 0, 0));
      head, count, published, running, failed := 0, 0, 0, true, false;
      offset, data, index, written, drops, bytesWritten, peak := 0, [], [], 0, 0, 0, 0;
      firstStamp, lastStamp := 0, 0;
      new;
      assert forall i | 0 <= i < frames :: Row(i) == Zeros(frameBytes);
      assert Rows() == Opened(frameBytes, frames).staging;
    }

    /** push's first critical section: None is a drop. */
    method Reserve() returns (slot: Option<nat>)
      requires Valid()
      modifies this
      ensures Valid()
      ensures slot.Some? <==> HasRoom(old(View()))
      ensures slot.Some? <==> running && !failed && old(count) != frames
      ensures slot.Some? ==> slot.value == (head + old(count)) % frames && old(count) + 1 == count <= peak
      ensures View() == if slot.Some? then Reserved(old(View())) else Dropped(old(View()))
      ensures slot.Some? ==> slot.value == NextSlot(old(View()))
    {
      if !running || failed || count == frames {
        drops := drops + 1;
        return None;
      }
      slot := Some((head + count) % frames);
      count := count + 1;
      if count > peak { peak := count; }
    }

    /** The copy and the record, outside the lock. */
    method Fill(slot: nat, frame: Buffer, r: IndexRecord)
      requires Valid() && slot < frames && |frame| == frameBytes
      modifies staging, meta
      ensures Valid() && View() == Described(Filled(old(View()), slot, frame), slot, r)
    {
      meta[slot] := r;
      var k := 0;
      while k < |frame|
        invariant k <= |frame| && meta[..] == old(meta[..])[slot := r]
        invariant forall i, j | 0 <= i < frames && 0 <= j < frameBytes ::
                    staging[i, j] == if i == slot && j < k then frame[j] else old(staging[i, j])
      {
        staging[slot, k] := frame[k];
        k := k + 1;
      }
      assert Row(slot) == frame;
      assert forall i | 0 <= i < frames && i != slot :: Row(i) == old(Row(i));
      assert Rows() == old(Rows())[slot := frame];
    }

    method PublishSlot()
      requires Valid()
      modifies this
      ensures Valid() && View() == Published(old(View()))
    {
      published := published + 1;
    }

    method Push(stamp: u64, received: u64, frameId: u32, frame: Buffer) returns (outcome: PushOutcome)
      requires Valid()
      modifies this, staging, meta
      ensures Valid()
      ensures outcome.WrongSize? <==> |frame| != frameBytes
      ensures outcome.WrongSize? ==> View() == old(View())
      ensures outcome.NoRoom? ==> !HasRoom(old(View())) && View() == Dropped(old(View()))
      ensures outcome.Accepted? ==>
                var slot := NextSlot(old(View()));
                HasRoom(old(View()))
                && View() == Published(Described(Filled(Reserved(old(View())), slot, frame), slot,
                                                 Describe(stamp, received, frameId, |frame|)))
      ensures outcome.Accepted? <==> |frame| == frameBytes && running && !failed && old(count) != frames
      ensures drops == old(drops) + if outcome.NoRoom? then 1 else 0
    {
      if |frame| != frameBytes {
        return WrongSize;
      }
      var slot := Reserve();
      if slot.None? {
        return NoRoom;
      }
      Fill(slot.value, frame, Describe(stamp, received, frameId, |frame|));
      PublishSlot();
      return Accepted;
    }

    method AppendRecord(record: IndexRecord)
      requires Valid()
      modifies this`index, this`offset, this`firstStamp, this`lastStamp, this`bytesWritten, this`written
      ensures Valid() && View() == Indexed(old(View()), record)
      ensures written == old(written) + 1 && bytesWritten == old(bytesWritten) + record.bytes
      ensures lastStamp == record.stamp
    {
      hide Encode, RoundUp;
      index := index + Encode(record);
      offset := offset + RoundUp(record.bytes, RECORD_ALIGN);
      if written == 0 { firstStamp := record.stamp; }
      lastStamp := record.stamp;
      bytesWritten := bytesWritten + record.bytes;
      written := written + 1;
    }

    method WriteFrame(slot: nat, landed: Landed) returns (ok: bool)
      requires Valid() && slot < frames
      modifies this`data, this`index, this`offset, this`firstStamp, this`lastStamp, this`bytesWritten, this`written
      ensures Valid() && ok == landed.All? && View() == WroteFrame(old(View()), slot, landed)
      ensures if ok then written == old(written) + 1 && bytesWritten == old(bytesWritten) + meta[slot].bytes
                         && lastStamp == meta[slot].stamp
              else written == old(written) && bytesWritten == old(bytesWritten) && offset == old(offset)
    {
      hide Written, FirstBytes, Wrap64, Indexed;
      var record := meta[slot].(offset := Wrap64(offset));
      var payload := ReadRow(slot, if record.bytes <= frameBytes then record.bytes else frameBytes);
      assert payload == Payload(View(), slot);
      data := Written(data, offset, if landed.Part? then FirstBytes(payload, landed.bytes) else payload);
      if !landed.All? {
        if landed.PartRecord? { index := index + TornRecord(record, landed.bytes); }
        return false;
      }
      AppendRecord(record);
      return true;
    }

    method ReadRow(slot: nat, n: nat) returns (bytes: Buffer)
      requires Valid() && slot < frames && n <= frameBytes
      ensures bytes == Row(slot)[..n]
    {
      bytes := [];
      while |bytes| < n
        invariant |bytes| <= n && bytes == Row(slot)[..|bytes|]
      {
        bytes := bytes + [staging[slot, |bytes|]];
      }
    }

    /** The writer thread's second critical section. */
    method Advance(ok: bool)
      requires Valid() && count > 0
      modifies this`head, this`count, this`published, this`failed
      ensures Valid() && View() == Advanced(old(View()), ok)
      ensures published == old(published) - 1 && count == old(count) - 1
      ensures failed == (old(failed) || !ok) && head == (old(head) + 1) % frames
    {
      head := (head + 1) % frames;
      count := count - 1;
      published := published - 1;
      if !ok && !failed { failed := true; }
    }

    /** The writer thread, once the stream is closing: it writes what is published.
        `landed` answers the writes, one by one. */
    method Drain(landed: seq<Landed>)
      requires Valid() && !running && 0 <= published <= count && |landed| == published
      modifies this
      ensures Valid() && !running && published == 0
      ensures View() == Drained(old(View()), landed)
    {
      hide Drained, WroteFrame, Advanced, Rows;
      var n := 0;
      while published > 0
        invariant Valid() && !running && n + published == |landed| && 0 <= published <= count
        invariant Drained(View(), landed[n..]) == Drained(old(View()), landed)
        decreases published
      {
        DrainedStep(View(), landed, n);
        var slot := head;
        var ok := WriteFrame(slot, landed[n]);
        Advance(ok);
        n := n + 1;
      }
      DrainedEnd(View(), landed[n..]);
    }

    /** close: the thread drains, then the data file is cut to the grid. False if it
        was closed. */
    method Close(landed: seq<Landed>) returns (first: bool)
      requires Valid() && 0 <= published <= count && |landed| == published
      modifies this
      ensures Valid() && !running && first == old(running)
      ensures if first then published == 0 && View() == Truncated(Drained(old(View()).(running := false), landed))
              else View() == old(View())
      ensures first ==> |data| == offset
    {
      hide Drained, Resized, Rows;
      if !running {
        return false;
      }
      running := false;
      Drain(landed);
      data := Resized(data, offset);
      return true;
    }
  }

  lemma DrainedStep(s: Stream, landed: seq<Landed>, n: nat)
    requires s.head < |s.staging| == |s.meta| && n < |landed|
    ensures Drained(s, landed[n..])
         == Drained(Advanced(WroteFrame(s, s.head, landed[n]), landed[n].All?), landed[n + 1..])
  {
    assert landed[n..][1..] == landed[n + 1..];
    hide WroteFrame, Advanced;
  }

  lemma DrainedEnd(s: Stream, landed: seq<Landed>)
    requires s.head < |s.staging| == |s.meta| && landed == []
    ensures Drained(s, landed) == s
  {
  }

  /** The writer thread's loop over a number of published frames. */
  function Drained(s: Stream, landed: seq<Landed>): Stream
    requires s.head < |s.staging| == |s.meta|
    decreases |landed|
  {
    if landed == [] then s
    else Drained(Advanced(WroteFrame(s, s.head, landed[0]), landed[0].All?), landed[1..])
  }
}
