/** Where the parts of each ROS message are in its bytes: the order of the message
    definition, whatever a reader of one's own would make of another one. */
module RosLayout {
  import opened Bytes
  import opened Cdr
  import opened CdrLayout
  import opened RosMessages

  /** sec, nanosec, frame_id. The second is a 32-bit number, so its high bits go. */
  ghost predicate HeaderAt(data: Buffer, h: Header) {
    && |data| >= 4 && data[..4] == [0, 1, 0, 0]
    && Says(data, 4, 4, h.stamp / 1_000_000_000 % 0x1_0000_0000) && Says(data, 8, 4, h.stamp % 1_000_000_000)
    && BytesAt(data, 12, |h.frameId| + 1, h.frameId + [0])
  }

  /** Behind the header. */
  function BodyOf(h: Header): nat {
    17 + |h.frameId|
  }

  ghost predicate DoublesAt(data: Buffer, from: nat, xs: seq<nat>) {
    forall k: nat | k < |xs| :: Says(data, from + 8 * k, 8, xs[k])
  }

  lemma HeaderLayout(h: Header, body: seq<Field>)
    ensures var fields := HeaderFields(h) + body;
            HeaderAt(Message(fields), h) && StartOf(fields, 3) == BodyOf(h)
  {
    var fields := HeaderFields(h) + body;
    MessageOnWire(fields);
    var data := Message(fields);
    assert fields[0] == I32(Signed32(Wrap32(h.stamp / NANOS))) && fields[1] == U32(h.stamp % NANOS);
    assert fields[2] == Str(h.frameId);
    assert StartOf(fields, 1) == 8 && StartOf(fields, 2) == 12;
    assert Carries(data, 4, fields[0]) && Carries(data, 8, fields[1]) && Carries(data, 12, fields[2]);
    hide Says, BytesAt;
  }

  /** An array of doubles among a message's fields, and where the next field starts. */
  lemma ArrayField(fields: seq<Field>, k: nat, xs: seq<nat>)
    requires k < |fields| && fields[k] == F64Array(xs) && xs != []
    ensures var at := Aligned(StartOf(fields, k), 8);
            DoublesAt(Message(fields), at, xs) && StartOf(fields, k + 1) == at + 8 * |xs|
  {
    MessageOnWire(fields);
    assert Carries(Message(fields), StartOf(fields, k), fields[k]);
    hide Says, Aligned;
  }

  lemma DoubleField(fields: seq<Field>, k: nat, x: u64)
    requires k < |fields| && fields[k] == F64(x)
    ensures var at := Aligned(StartOf(fields, k), 8);
            Says(Message(fields), at, 8, x) && StartOf(fields, k + 1) == at + 8
  {
    MessageOnWire(fields);
    assert Carries(Message(fields), StartOf(fields, k), fields[k]);
    hide Says, Aligned;
  }

  lemma MessageEnds(fields: seq<Field>)
    ensures |Message(fields)| == StartOf(fields, |fields|)
  {
    MessageOnWire(fields);
  }

  lemma StaysAligned(at: nat, n: nat)
    requires at >= ORIGIN
    ensures var from := Aligned(at, 8); Aligned(from + 8 * n, 8) == from + 8 * n
  {
  }

  /** sensor_msgs/Imu: orientation, angular velocity and linear acceleration, each with
      its covariance behind it. */
  lemma ImuLayout(h: Header, m: Imu)
    ensures var data := Message(ImuFields(h, m));
            var at := Aligned(BodyOf(h), 8);
            && HeaderAt(data, h)
            && DoublesAt(data, at, m.orientation) && DoublesAt(data, at + 32, m.orientationCovariance)
            && DoublesAt(data, at + 104, m.angularVelocity)
            && DoublesAt(data, at + 128, m.angularVelocityCovariance)
            && DoublesAt(data, at + 200, m.linearAcceleration)
            && DoublesAt(data, at + 224, m.linearAccelerationCovariance)
            && |data| == at + 296
  {
    var fields, from := ImuFields(h, m), BodyOf(h);
    hide DoublesAt, Says, HeaderAt, Aligned, StartOf, EndOf, Carries, Message;
    HeaderLayout(h, fields[3..]);
    assert HeaderFields(h) + fields[3..] == fields && |fields| == 9;
    ArrayField(fields, 3, m.orientation);
    StaysAligned(from, 4);
    ArrayField(fields, 4, m.orientationCovariance);
    StaysAligned(from, 13);
    ArrayField(fields, 5, m.angularVelocity);
    StaysAligned(from, 16);
    ArrayField(fields, 6, m.angularVelocityCovariance);
    StaysAligned(from, 25);
    ArrayField(fields, 7, m.linearAcceleration);
    StaysAligned(from, 28);
    ArrayField(fields, 8, m.linearAccelerationCovariance);
    MessageEnds(fields);
  }

  /** sensor_msgs/MagneticField. */
  lemma MagneticLayout(h: Header, m: MagneticField)
    ensures var data := Message(MagneticFields(h, m));
            var at := Aligned(BodyOf(h), 8);
            && HeaderAt(data, h) && DoublesAt(data, at, m.field) && DoublesAt(data, at + 24, m.covariance)
            && |data| == at + 96
  {
    var fields := MagneticFields(h, m);
    hide DoublesAt, Says, HeaderAt, Aligned, StartOf, EndOf, Carries, Message;
    HeaderLayout(h, fields[3..]);
    assert HeaderFields(h) + fields[3..] == fields && |fields| == 5;
    ArrayField(fields, 3, m.field);
    StaysAligned(BodyOf(h), 3);
    ArrayField(fields, 4, m.covariance);
    MessageEnds(fields);
  }

  /** sensor_msgs/FluidPressure. */
  lemma PressureLayout(h: Header, m: FluidPressure)
    ensures var data := Message(PressureFields(h, m));
            var at := Aligned(BodyOf(h), 8);
            && HeaderAt(data, h) && Says(data, at, 8, m.pressure) && Says(data, at + 8, 8, m.variance)
            && |data| == at + 16
  {
    var fields := PressureFields(h, m);
    hide DoublesAt, Says, HeaderAt, Aligned, StartOf, EndOf, Carries, Message;
    HeaderLayout(h, fields[3..]);
    assert HeaderFields(h) + fields[3..] == fields && |fields| == 5;
    DoubleField(fields, 3, m.pressure);
    StaysAligned(BodyOf(h), 1);
    DoubleField(fields, 4, m.variance);
    MessageEnds(fields);
  }

  /** sensor_msgs/Image: height before width, the encoding, the byte order of the pixels
      (always little), the row length, the pixels. */
  lemma ImageLayout(h: Header, m: Image)
    ensures var data := Message(ImageFields(h, m));
            var at := Aligned(BodyOf(h), 4);
            var behind := at + 13 + |m.encoding|;
            && HeaderAt(data, h)
            && Says(data, at, 4, m.height) && Says(data, at + 4, 4, m.width)
            && BytesAt(data, at + 8, |m.encoding| + 1, m.encoding + [0])
            && Says(data, behind, 1, 0)
            && NumberAt(data, behind + 1, 4, m.step)
            && BytesAt(data, Aligned(behind + 1, 4) + 4, |m.pixels|, m.pixels)
            && |data| == Aligned(behind + 1, 4) + 8 + |m.pixels|
  {
    var fields, from := ImageFields(h, m), BodyOf(h);
    ImageParts(h, m);
    hide HeaderAt, Says, NumberAt, BytesAt, Message, StartOf, EndOf, Aligned, ImageFields;
    HeaderLayout(h, fields[3..]);
    WordAt(fields, 3, m.height);
    StaysAligned4(from, 1);
    WordAt(fields, 4, m.width);
    StaysAligned4(from, 2);
    TextAt(fields, 5, m.encoding);
    OctetAt(fields, 6, 0);
    WordAt(fields, 7, m.step);
    StaysAligned4(StartOf(fields, 7), 1);
    BlobAt(fields, 8, m.pixels);
    MessageEnds(fields);
  }

  lemma ImageParts(h: Header, m: Image)
    ensures var fields := ImageFields(h, m);
            && |fields| == 9 && HeaderFields(h) + fields[3..] == fields
            && fields[3] == U32(m.height) && fields[4] == U32(m.width) && fields[5] == Str(m.encoding)
            && fields[6] == U8(0) && fields[7] == U32(m.step) && fields[8] == Octets(m.pixels)
  {
  }

  lemma WordAt(fields: seq<Field>, k: nat, v: u32)
    requires k < |fields| && fields[k] == U32(v)
    ensures var at := StartOf(fields, k);
            && NumberAt(Message(fields), at, 4, v) && Says(Message(fields), Aligned(at, 4), 4, v)
            && StartOf(fields, k + 1) == Aligned(at, 4) + 4
  {
    PartAt(fields, k);
  }

  lemma OctetAt(fields: seq<Field>, k: nat, v: byte)
    requires k < |fields| && fields[k] == U8(v)
    ensures Says(Message(fields), StartOf(fields, k), 1, v) && StartOf(fields, k + 1) == StartOf(fields, k) + 1
  {
    PartAt(fields, k);
    AlignedIsNext(StartOf(fields, k), 1);
  }

  lemma TextAt(fields: seq<Field>, k: nat, text: Buffer)
    requires k < |fields| && fields[k] == Str(text)
    ensures var at := StartOf(fields, k);
            && BytesAt(Message(fields), at, |text| + 1, text + [0])
            && StartOf(fields, k + 1) == Aligned(at, 4) + 5 + |text|
  {
    PartAt(fields, k);
  }

  lemma BlobAt(fields: seq<Field>, k: nat, bytes: Buffer)
    requires k < |fields| && fields[k] == Octets(bytes)
    ensures var at := StartOf(fields, k);
            && BytesAt(Message(fields), at, |bytes|, bytes)
            && StartOf(fields, k + 1) == Aligned(at, 4) + 4 + |bytes|
  {
    PartAt(fields, k);
  }

  lemma PartAt(fields: seq<Field>, k: nat)
    requires k < |fields|
    ensures Carries(Message(fields), StartOf(fields, k), fields[k])
  {
    MessageOnWire(fields);
    hide Carries, StartOf, Message;
  }

  lemma StaysAligned4(at: nat, n: nat)
    requires at >= ORIGIN
    ensures var from := Aligned(at, 4); from >= ORIGIN && Aligned(from + 4 * n, 4) == from + 4 * n
  {
  }
}
