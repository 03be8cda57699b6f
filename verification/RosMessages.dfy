/** The ROS 2 messages the recorder writes and the replay reads back: a header whose
    stamp is split into seconds and nanoseconds, then the message's own fields. */
module RosMessages {
  import opened Options
  import opened Bytes
  import opened Cdr
  import opened CdrRoundTrip
  import opened CdrStreams

  const NANOS: nat := 1_000_000_000

  type Doubles3 = s: seq<nat> | |s| == 3 && Within(8, s) witness [0, 0, 0]
  type Doubles4 = s: seq<nat> | |s| == 4 && Within(8, s) witness [0, 0, 0, 0]
  type Doubles9 = s: seq<nat> | |s| == 9 && Within(8, s) witness [0, 0, 0, 0, 0, 0, 0, 0, 0]

  datatype Header = Header(stamp: u64, frameId: Buffer)

  datatype PixelFormat = BayerRGGB8 | BayerGRBG8 | BayerGBRG8 | BayerBGGR8 | Gray8 | Rgb8 | Rgba8

  datatype Image = Image(width: u32, height: u32, step: u32, encoding: Buffer, pixels: Buffer)

  datatype Imu = Imu(orientation: Doubles4, orientationCovariance: Doubles9,
                     angularVelocity: Doubles3, angularVelocityCovariance: Doubles9,
                     linearAcceleration: Doubles3, linearAccelerationCovariance: Doubles9)

  datatype MagneticField = MagneticField(field: Doubles3, covariance: Doubles9)

  datatype FluidPressure = FluidPressure(pressure: u64, variance: u64)

  // ------------------------------------------------------------- pixel formats

  function RosEncoding(format: PixelFormat): string {
    match format
    case BayerRGGB8 => "bayer_rggb8"
    case BayerGRBG8 => "bayer_grbg8"
    case BayerGBRG8 => "bayer_gbrg8"
    case BayerBGGR8 => "bayer_bggr8"
    case Gray8 => "mono8"
    case Rgb8 => "rgb8"
    case Rgba8 => "rgba8"
  }

  /** The camera's name for a recorded encoding. */
  function CameraFormat(encoding: string): Option<string> {
    if encoding == "bayer_rggb8" then Some("BayerRG8")
    else if encoding == "bayer_grbg8" then Some("BayerGR8")
    else if encoding == "bayer_gbrg8" then Some("BayerGB8")
    else if encoding == "bayer_bggr8" then Some("BayerBG8")
    else if encoding == "mono8" then Some("Mono8")
    else if encoding == "rgb8" then Some("RGB8")
    else if encoding == "rgba8" then Some("RGBa8")
    else None
  }

  /** Every format the recorder writes replays, and no two as the same. */
  lemma FormatsReplay(f: PixelFormat, g: PixelFormat)
    ensures CameraFormat(RosEncoding(f)).Some?
    ensures f != g ==> CameraFormat(RosEncoding(f)) != CameraFormat(RosEncoding(g))
  {
    var name := CameraFormat(RosEncoding(f)).value;
    var other := CameraFormat(RosEncoding(g)).value;
    assert |name| > 5 ==> name[5] in "RGBo";
    assert |name| == |other| && |name| == 8 ==> name[5] == other[5] && name[6] == other[6] ==> f == g;
  }

  // ------------------------------------------------------------------- encoding

  function HeaderFields(h: Header): seq<Field> {
    [I32(Signed32(Wrap32(h.stamp / NANOS))), U32(h.stamp % NANOS), Str(h.frameId)]
  }

  function ImageBody(m: Image): seq<Field> {
    [U32(m.height), U32(m.width), Str(m.encoding), U8(0), U32(m.step), Octets(m.pixels)]
  }

  function ImageFields(h: Header, m: Image): seq<Field> {
    HeaderFields(h) + ImageBody(m)
  }

  function ImuFields(h: Header, m: Imu): seq<Field> {
    HeaderFields(h)
    + [F64Array(m.orientation), F64Array(m.orientationCovariance), F64Array(m.angularVelocity),
       F64Array(m.angularVelocityCovariance), F64Array(m.linearAcceleration),
       F64Array(m.linearAccelerationCovariance)]
  }

  function MagneticFields(h: Header, m: MagneticField): seq<Field> {
    HeaderFields(h) + [F64Array(m.field), F64Array(m.covariance)]
  }

  function PressureFields(h: Header, m: FluidPressure): seq<Field> {
    HeaderFields(h) + [F64(m.pressure), F64(m.variance)]
  }

  // ------------------------------------------------------------------- decoding

  const HEADER_KINDS: seq<Kind> := [KI32, KU32, KStr]
  const IMAGE_KINDS: seq<Kind> := HEADER_KINDS + [KU32, KU32, KStr, KU8, KU32, KOctets]
  const IMU_KINDS: seq<Kind> :=
    HEADER_KINDS + [KF64Array(4), KF64Array(9), KF64Array(3), KF64Array(9), KF64Array(3), KF64Array(9)]
  const MAGNETIC_KINDS: seq<Kind> := HEADER_KINDS + [KF64Array(3), KF64Array(9)]
  const PRESSURE_KINDS: seq<Kind> := HEADER_KINDS + [KF64, KF64]

  /** sec and nanosec rejoined; a negative second is not a time. */
  function Rejoin(sec: i32, nanosec: u32): u64 {
    if sec < 0 then 0 else sec * NANOS + nanosec
  }

  /** The fields of these kinds at the front of `data`, if they are all there. */
  function Parse(data: Buffer, kinds: seq<Kind>): (values: Option<seq<Field>>)
    ensures values.Some? ==>
              KindsOf(values.value) == kinds && |values.value| == |kinds|
              && (forall i | 0 <= i < |kinds| :: KindOf(values.value[i]) == kinds[i] && values.value[i].Typed())
  {
    var (end, values) := GetAll(Open(data), kinds);
    assert end.ok ==> forall i | 0 <= i < |kinds| :: KindsOf(values)[i] == kinds[i] && values[i] in values;
    if end.ok then Some(values) else None
  }

  function HeaderOf(sec: i32, nanosec: u32, frameId: Buffer): Header {
    Header(Rejoin(sec, nanosec), frameId)
  }

  /** decode_image: the replay refuses a message that ends early and a stamp before
      the epoch. */
  function DecodeImage(data: Buffer): Option<(Header, Image)> {
    match Parse(data, IMAGE_KINDS)
    case None => None
    case Some(v) => if v[0].int32 < 0 then None else Some(ImageOf(v))
  }

  function ImageOf(v: seq<Field>): (Header, Image)
    requires |v| == 9 && v[0].I32? && v[1].U32? && v[2].Str?
    requires v[3].U32? && v[4].U32? && v[5].Str? && v[7].U32? && v[8].Octets?
  {
    (HeaderOf(v[0].int32, v[1].uint32, v[2].chars),
     Image(v[4].uint32, v[3].uint32, v[7].uint32, v[5].chars, v[8].octets))
  }

  predicate IsDoubles(f: Field, n: nat) {
    f.F64Array? && |f.doubles| == n && Within(8, f.doubles)
  }

  function ImuOf(v: seq<Field>): (Header, Imu)
    requires |v| == 9 && v[0].I32? && v[1].U32? && v[2].Str?
    requires IsDoubles(v[3], 4) && IsDoubles(v[4], 9) && IsDoubles(v[5], 3) && IsDoubles(v[6], 9)
    requires IsDoubles(v[7], 3) && IsDoubles(v[8], 9)
  {
    (HeaderOf(v[0].int32, v[1].uint32, v[2].chars),
     Imu(v[3].doubles, v[4].doubles, v[5].doubles, v[6].doubles, v[7].doubles, v[8].doubles))
  }

  function DecodeImu(data: Buffer): Option<(Header, Imu)> {
    match Parse(data, IMU_KINDS)
    case None => None
    case Some(v) => Some(ImuOf(v))
  }

  function MagneticFieldOf(v: seq<Field>): (Header, MagneticField)
    requires |v| == 5 && v[0].I32? && v[1].U32? && v[2].Str?
    requires IsDoubles(v[3], 3) && IsDoubles(v[4], 9)
  {
    (HeaderOf(v[0].int32, v[1].uint32, v[2].chars), MagneticField(v[3].doubles, v[4].doubles))
  }

  function DecodeMagneticField(data: Buffer): Option<(Header, MagneticField)> {
    match Parse(data, MAGNETIC_KINDS)
    case None => None
    case Some(v) => Some(MagneticFieldOf(v))
  }

  function FluidPressureOf(v: seq<Field>): (Header, FluidPressure)
    requires |v| == 5 && v[0].I32? && v[1].U32? && v[2].Str? && v[3].F64? && v[4].F64?
  {
    (HeaderOf(v[0].int32, v[1].uint32, v[2].chars), FluidPressure(v[3].double, v[4].double))
  }

  function DecodeFluidPressure(data: Buffer): Option<(Header, FluidPressure)> {
    match Parse(data, PRESSURE_KINDS)
    case None => None
    case Some(v) => Some(FluidPressureOf(v))
  }

  // ---------------------------------------------------------------- round trips

  predicate NameFits(name: Buffer) {
    |name| + 1 < 0x1_0000_0000
  }

  /** A stamp below 2^31 seconds. */
  predicate StampFits(stamp: u64) {
    stamp / NANOS < 0x8000_0000
  }

  /** The split and the rejoining are inverse exactly for stamps below 2^31 seconds. */
  lemma StampRoundTrip(stamp: u64)
    ensures Rejoin(Signed32(Wrap32(stamp / NANOS)), stamp % NANOS) == stamp <==> StampFits(stamp)
  {
    var sec, nanosec := stamp / NANOS, stamp % NANOS;
    assert stamp == sec * NANOS + nanosec;
    var back := Signed32(Wrap32(sec));
    if StampFits(stamp) {
      assert back == sec;
    } else if back >= 0 {
      assert back < 0x8000_0000 <= sec;
    }
  }

  /** A list of fields whose lengths fit comes back whole. */
  lemma ParseMessage(fields: seq<Field>)
    requires forall f | f in fields :: f.Typed() && Fits(f)
    ensures Parse(Message(fields), KindsOf(fields)) == Some(fields)
  {
    RoundTrip(fields);
  }

  lemma HeaderBack(h: Header)
    ensures var f := HeaderFields(h);
            HeaderOf(f[0].int32, f[1].uint32, f[2].chars) == h <==> StampFits(h.stamp)
  {
    StampRoundTrip(h.stamp);
  }

  /** An image comes back as it went in exactly when its stamp is below 2^31
      seconds. */
  lemma ImageRoundTrip(h: Header, m: Image)
    requires NameFits(h.frameId) && NameFits(m.encoding) && |m.pixels| < 0x1_0000_0000
    ensures DecodeImage(Message(ImageFields(h, m))) == Some((h, m)) <==> StampFits(h.stamp)
  {
    hide Parse, Message, ImageOf, ImageFields, StampFits, KindsOf;
    ImageFitting(h, m);
    ImageBack(h, m);
    ParseMessage(ImageFields(h, m));
  }

  lemma ImageFitting(h: Header, m: Image)
    requires NameFits(h.frameId) && NameFits(m.encoding) && |m.pixels| < 0x1_0000_0000
    ensures forall f | f in ImageFields(h, m) :: f.Typed() && Fits(f)
  {
  }

  lemma ImageBack(h: Header, m: Image)
    ensures KindsOf(ImageFields(h, m)) == IMAGE_KINDS
    ensures ImageOf(ImageFields(h, m)) == (h, m) <==> StampFits(h.stamp)
    ensures StampFits(h.stamp) ==> ImageFields(h, m)[0].int32 >= 0
  {
    HeaderBack(h);
    hide Rejoin;
  }

  lemma ImuRoundTrip(h: Header, m: Imu)
    requires NameFits(h.frameId)
    ensures DecodeImu(Message(ImuFields(h, m))) == Some((h, m)) <==> StampFits(h.stamp)
  {
    hide Parse, Message, ImuOf, ImuFields, StampFits, KindsOf;
    ImuBack(h, m);
    ParseMessage(ImuFields(h, m));
  }

  lemma ImuBack(h: Header, m: Imu)
    requires NameFits(h.frameId)
    ensures KindsOf(ImuFields(h, m)) == IMU_KINDS && forall f | f in ImuFields(h, m) :: f.Typed() && Fits(f)
    ensures ImuOf(ImuFields(h, m)) == (h, m) <==> StampFits(h.stamp)
  {
    HeaderBack(h);
    hide Rejoin;
  }

  lemma MagneticFieldRoundTrip(h: Header, m: MagneticField)
    requires NameFits(h.frameId)
    ensures DecodeMagneticField(Message(MagneticFields(h, m))) == Some((h, m)) <==> StampFits(h.stamp)
  {
    hide Parse, Message, MagneticFieldOf, MagneticFields, StampFits, KindsOf;
    MagneticFieldBack(h, m);
    ParseMessage(MagneticFields(h, m));
  }

  lemma MagneticFieldBack(h: Header, m: MagneticField)
    requires NameFits(h.frameId)
    ensures KindsOf(MagneticFields(h, m)) == MAGNETIC_KINDS
    ensures forall f | f in MagneticFields(h, m) :: f.Typed() && Fits(f)
    ensures MagneticFieldOf(MagneticFields(h, m)) == (h, m) <==> StampFits(h.stamp)
  {
    HeaderBack(h);
    hide Rejoin;
  }

  lemma FluidPressureRoundTrip(h: Header, m: FluidPressure)
    requires NameFits(h.frameId)
    ensures DecodeFluidPressure(Message(PressureFields(h, m))) == Some((h, m)) <==> StampFits(h.stamp)
  {
    hide Parse, Message, FluidPressureOf, PressureFields, StampFits, KindsOf;
    FluidPressureBack(h, m);
    ParseMessage(PressureFields(h, m));
  }

  lemma FluidPressureBack(h: Header, m: FluidPressure)
    requires NameFits(h.frameId)
    ensures KindsOf(PressureFields(h, m)) == PRESSURE_KINDS
    ensures forall f | f in PressureFields(h, m) :: f.Typed() && Fits(f)
    ensures FluidPressureOf(PressureFields(h, m)) == (h, m) <==> StampFits(h.stamp)
  {
    HeaderBack(h);
    hide Rejoin;
  }
}
