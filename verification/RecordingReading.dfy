/** Opening a recording: the index is parsed, payloads are read on demand, and two
    streams are paired by their camera timestamps. */
module RecordingReading {
  import opened Options
  import opened Bytes
  import opened Cdr
  import opened RecordingFormat
  import opened FramePairing

  /** The index of one stream; a size that is no whole number of records is
      refused. */
  function ParseIndex(raw: Buffer): Option<seq<IndexRecord>> {
    if |raw| % RECORD_SIZE != 0 then None else Some(DecodeAll(raw))
  }

  /** The payload a record names, unless the data file ends before it does. */
  function Payload(data: Buffer, r: IndexRecord): Option<Buffer> {
    if r.bytes == 0 then Some([])
    else if r.offset + r.bytes > |data| then None
    else Some(data[r.offset..r.offset + r.bytes])
  }

  lemma DecodeStep(raw: Buffer, at: nat)
    requires at + RECORD_SIZE <= |raw|
    ensures DecodeAll(raw[at..]) == [Decode(raw[at..at + RECORD_SIZE])] + DecodeAll(raw[at + RECORD_SIZE..])
  {
    assert raw[at..][..RECORD_SIZE] == raw[at..at + RECORD_SIZE];
    assert raw[at..][RECORD_SIZE..] == raw[at + RECORD_SIZE..];
  }

  /** Record `i` is what is at 32 times `i`. */
  lemma {:induction false} RecordAt(raw: Buffer, i: nat)
    requires i < |raw| / RECORD_SIZE
    ensures 32 * i + 32 <= |raw| && DecodeAll(raw)[i] == Decode(raw[32 * i..32 * i + 32])
    decreases i
  {
    if i > 0 {
      RecordAt(raw[RECORD_SIZE..], i - 1);
      assert raw[RECORD_SIZE..][32 * (i - 1)..32 * (i - 1) + 32] == raw[32 * i..32 * i + 32];
    } else {
      assert raw[..32] == raw[0..32];
    }
  }

  lemma DecodeNone(raw: Buffer)
    requires |raw| < RECORD_SIZE
    ensures DecodeAll(raw) == []
  {
  }

  /** The memcpy of the index file into records. */
  method Records(raw: Buffer) returns (records: seq<IndexRecord>)
    requires |raw| % RECORD_SIZE == 0
    ensures records == DecodeAll(raw)
  {
    hide DecodeAll, Decode;
    records := [];
    var at := 0;
    DecodeNone(raw[|raw|..]);
    assert raw[0..] == raw;
    while at < |raw|
      invariant at <= |raw| && at % RECORD_SIZE == 0
      invariant records + DecodeAll(raw[at..]) == DecodeAll(raw)
    {
      var record := Decode(raw[at..at + RECORD_SIZE]);
      DecodeStep(raw, at);
      Append(records, record, DecodeAll(raw[at + RECORD_SIZE..]));
      records := records + [record];
      at := at + RECORD_SIZE;
    }
  }

  datatype Reading = Bytes(frame: Buffer) | OutOfRange | ShortRead

  class StreamReader {
    const data: Buffer
    var index: seq<IndexRecord>
    var stamps: seq<u64>
    var parsed: bool

    ghost predicate Valid()
      reads this
    {
      |stamps| == |index| && forall i: nat | i < |index| :: stamps[i] == index[i].stamp
    }

    /** `parsed` is false for a malformed index. */
    constructor (raw: Buffer, data: Buffer)
      ensures Valid() && this.data == data && parsed == ParseIndex(raw).Some?
      ensures parsed ==> index == ParseIndex(raw).value
      ensures parsed <==> |raw| % 32 == 0
      ensures parsed ==>
                |index| == |raw| / 32
                && forall i: nat | i < |index| :: 32 * i + 32 <= |raw| && index[i] == Decode(raw[32 * i..32 * i + 32])
    {
      this.data, index, stamps := data, [], [];
      parsed := |raw| % RECORD_SIZE == 0;
      new;
      if parsed {
        index := Records(raw);
        forall i: nat | i < |index|
          ensures 32 * i + 32 <= |raw| && index[i] == Decode(raw[32 * i..32 * i + 32])
        {
          RecordAt(raw, i);
        }
        var i := 0;
        while i < |index|
          invariant i <= |index| && index == DecodeAll(raw) && parsed
          invariant |stamps| == i && forall k: nat | k < i :: stamps[k] == index[k].stamp
        {
          stamps := stamps + [index[i].stamp];
          i := i + 1;
        }
      }
    }

    /** read_frame; a read gets at most `burst` bytes at a time. */
    method ReadFrame(i: nat, burst: nat) returns (r: Reading)
      requires Valid() && burst > 0
      ensures r.OutOfRange? <==> i >= |index|
      ensures i < |index| ==>
                match Payload(data, index[i])
                case Some(bytes) => r == Bytes(bytes)
                case None => r == ShortRead
      ensures r.ShortRead? <==> i < |index| && index[i].bytes > 0 && index[i].offset + index[i].bytes > |data|
      ensures r.Bytes? && index[i].bytes > 0 ==>
                r.frame == data[index[i].offset..index[i].offset + index[i].bytes]
    {
      if i >= |index| {
        return OutOfRange;
      }
      var record := index[i];
      var frame: Buffer := [];
      while |frame| < record.bytes
        invariant |frame| <= record.bytes
        invariant |frame| > 0 ==> record.offset + |frame| <= |data|
        invariant |frame| > 0 ==> frame == data[record.offset..record.offset + |frame|]
        decreases record.bytes - |frame|
      {
        var at := record.offset + |frame|;
        var wanted := if record.bytes - |frame| < burst then record.bytes - |frame| else burst;
        var n := if at >= |data| then 0 else if |data| - at < wanted then |data| - at else wanted;
        if n == 0 {
          return ShortRead;
        }
        assert data[record.offset..at + n] == data[record.offset..at] + data[at..at + n];
        frame := frame + data[at..at + n];
      }
      return Bytes(frame);
    }
  }

  datatype Pairing = Paired(result: PairResult) | NotTwoStreams | GoesBackwards(stream: nat, at: nat)

  /** pair: two streams whose stamps never go back, merged. */
  method Pair(streams: seq<seq<Stamp>>, tolerance: nat) returns (r: Pairing)
    ensures r.NotTwoStreams? <==> |streams| != 2
    ensures r.Paired? <==> |streams| == 2 && Sorted(streams[0]) && Sorted(streams[1])
    ensures r.Paired? ==>
              && r.result.pairs == PairsFrom(streams[0], streams[1], tolerance, 0, 0, 0)
              && r.result.stats.AccountsFor(|streams[0]|, |streams[1]|)
    ensures r.Paired? ==>
              forall m | IsMatching(streams[0], streams[1], tolerance, 0, 0, m) :: |m| <= r.result.stats.paired
    ensures r.GoesBackwards? ==>
              r.stream < 2 == |streams| && 0 < r.at < |streams[r.stream]|
              && streams[r.stream][r.at] < streams[r.stream][r.at - 1]
  {
    if |streams| != 2 {
      return NotTwoStreams;
    }
    var s := 0;
    while s < 2
      invariant s <= 2 && forall k | 0 <= k < s :: Sorted(streams[k])
    {
      var at := FirstTimestampRegression(streams[s]);
      if at < |streams[s]| {
        return GoesBackwards(s, at);
      }
      s := s + 1;
    }
    var result := PairByTimestamp(streams[0], streams[1], tolerance);
    forall m | IsMatching(streams[0], streams[1], tolerance, 0, 0, m) ensures |m| <= result.stats.paired {
      MaximumMatching(streams[0], streams[1], tolerance, m);
    }
    return Paired(result);
  }

  /** The recording's shared epoch: the smallest first stamp, where a stream
      without one says 0. */
  method Epoch(firsts: seq<u64>) returns (epoch: u64)
    ensures epoch == 0 <==> forall f | f in firsts :: f == 0
    ensures epoch != 0 ==> epoch in firsts && forall f | f in firsts && f != 0 :: epoch <= f
  {
    epoch := 0;
    var i := 0;
    while i < |firsts|
      invariant i <= |firsts|
      invariant epoch == 0 <==> forall k | 0 <= k < i :: firsts[k] == 0
      invariant epoch != 0 ==> epoch in firsts && forall k | 0 <= k < i && firsts[k] != 0 :: epoch <= firsts[k]
    {
      var first := firsts[i];
      if first != 0 && (epoch == 0 || first < epoch) { epoch := first; }
      i := i + 1;
    }
  }
}
