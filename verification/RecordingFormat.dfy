/** The on-disk shape of a recording: 32-byte index records, and payloads spaced
    on a grid of whole pages in the data file. */
module RecordingFormat {
  import opened Bytes
  import opened Cdr
  import opened CdrLayout

  const RECORD_ALIGN: nat := 4096
  const RECORD_SIZE: nat := 32

  datatype IndexRecord = IndexRecord(stamp: u64, received: u64, offset: u64, bytes: u32, frameId: u32)

  function RoundUp(value: nat, to: nat): (r: nat)
    requires to > 0
  {
    (value + to - 1) / to * to
  }

  lemma RoundUpCovers(value: nat)
    ensures value <= RoundUp(value, RECORD_ALIGN) < value + RECORD_ALIGN
    ensures RoundUp(value, RECORD_ALIGN) % RECORD_ALIGN == 0
  {
  }

  /** The record as it is appended to the index: packed, little-endian. */
  function Encode(r: IndexRecord): (bytes: Buffer)
    ensures |bytes| == RECORD_SIZE
  {
    Little(8, r.stamp) + Little(8, r.received) + Little(8, r.offset) + Little(4, r.bytes) + Little(4, r.frameId)
  }

  function Decode(bytes: Buffer): IndexRecord
    requires |bytes| == RECORD_SIZE
  {
    IndexRecord(U64At(bytes, 0), U64At(bytes, 8), U64At(bytes, 16), U32At(bytes, 24), U32At(bytes, 28))
  }

  function U64At(bytes: Buffer, at: nat): u64
    requires at + 8 <= |bytes|
  {
    NumberBounded(bytes[at..at + 8]);
    LimitIsPower(8);
    Number(bytes[at..at + 8])
  }

  function U32At(bytes: Buffer, at: nat): u32
    requires at + 4 <= |bytes|
  {
    NumberBounded(bytes[at..at + 4]);
    LimitIsPower(4);
    Number(bytes[at..at + 4])
  }

  lemma DecodeEncode(r: IndexRecord)
    ensures Decode(Encode(r)) == r
  {
    var e := Encode(r);
    LimitIsPower(8);
    LimitIsPower(4);
    LittleNumber(8, r.stamp);
    LittleNumber(8, r.received);
    LittleNumber(8, r.offset);
    LittleNumber(4, r.bytes);
    LittleNumber(4, r.frameId);
    hide Little, Number, Pow256;
    assert e[0..8] == Little(8, r.stamp) && e[8..16] == Little(8, r.received) && e[16..24] == Little(8, r.offset);
    assert e[24..28] == Little(4, r.bytes) && e[28..32] == Little(4, r.frameId);
  }

  /** A record's bytes: stamp, arrival, offset, length and frame id, each the least
      significant byte first, without gaps. */
  lemma RecordLayout(r: IndexRecord)
    ensures var e := Encode(r);
            && |e| == 32 && Says(e, 0, 8, r.stamp) && Says(e, 8, 8, r.received) && Says(e, 16, 8, r.offset)
            && Says(e, 24, 4, r.bytes) && Says(e, 28, 4, r.frameId)
  {
    var e := Encode(r);
    LittleSays(8, r.stamp, e, 0);
    LittleSays(8, r.received, e, 8);
    LittleSays(8, r.offset, e, 16);
    LittleSays(4, r.bytes, e, 24);
    LittleSays(4, r.frameId, e, 28);
  }

  /** The index file with these records. */
  function EncodeAll(records: seq<IndexRecord>): (bytes: Buffer)
    ensures |bytes| == RECORD_SIZE * |records|
  {
    if records == [] then [] else EncodeAll(records[..|records| - 1]) + Encode(records[|records| - 1])
  }

  /** Record `i` of the index is at 32 times `i`. */
  lemma {:induction false} IndexLayout(records: seq<IndexRecord>, i: nat)
    requires i < |records|
    ensures EncodeAll(records)[32 * i..32 * i + 32] == Encode(records[i])
    decreases |records|
  {
    var init := records[..|records| - 1];
    if i < |init| {
      IndexLayout(init, i);
      assert EncodeAll(records)[32 * i..32 * i + 32] == EncodeAll(init)[32 * i..32 * i + 32];
    }
  }

  /** The whole records of an index file. */
  function DecodeAll(bytes: Buffer): (records: seq<IndexRecord>)
    ensures |records| == |bytes| / RECORD_SIZE
    decreases |bytes|
  {
    if |bytes| < RECORD_SIZE then [] else
      [Decode(bytes[..RECORD_SIZE])] + DecodeAll(bytes[RECORD_SIZE..])
  }

  lemma {:induction false} DecodeOneMore(bytes: Buffer, r: IndexRecord)
    requires |bytes| % RECORD_SIZE == 0
    ensures DecodeAll(bytes + Encode(r)) == DecodeAll(bytes) + [r]
    decreases |bytes|
  {
    var all := bytes + Encode(r);
    if bytes == [] {
      assert all[..RECORD_SIZE] == Encode(r) && all[RECORD_SIZE..] == [];
      DecodeEncode(r);
      assert DecodeAll(all) == [Decode(Encode(r))] + DecodeAll([]);
    } else {
      assert all[..RECORD_SIZE] == bytes[..RECORD_SIZE] && all[RECORD_SIZE..] == bytes[RECORD_SIZE..] + Encode(r);
      DecodeOneMore(bytes[RECORD_SIZE..], r);
      assert [Decode(bytes[..RECORD_SIZE])] + (DecodeAll(bytes[RECORD_SIZE..]) + [r])
             == [Decode(bytes[..RECORD_SIZE])] + DecodeAll(bytes[RECORD_SIZE..]) + [r];
    }
  }

  /** An index that was written is read back. */
  lemma {:induction false} IndexRoundTrip(records: seq<IndexRecord>)
    ensures DecodeAll(EncodeAll(records)) == records
  {
    if records != [] {
      var init := records[..|records| - 1];
      IndexRoundTrip(init);
      DecodeOneMore(EncodeAll(init), records[|records| - 1]);
      assert records == init + [records[|records| - 1]];
    }
  }

  // ---------------------------------------------------------------- data file

  /** pwrite: a hole before the offset reads as zeros. */
  function Written(file: Buffer, offset: nat, data: Buffer): (r: Buffer)
    ensures |r| == if |file| > offset + |data| then |file| else offset + |data|
  {
    var base := if |file| < offset + |data| then Resized(file, offset + |data|) else file;
    Copied(base, offset, data)
  }

  lemma WrittenReads(file: Buffer, offset: nat, data: Buffer, from: nat, to: nat)
    requires from <= to
    ensures Written(file, offset, data)[offset..offset + |data|] == data
    ensures to <= offset && to <= |file| ==> Written(file, offset, data)[from..to] == file[from..to]
  {
  }
}
