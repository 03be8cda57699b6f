/** The encoders and decoders themselves, field by field on a CDR writer or reader:
    each writes, or reads, exactly its message's field list. */
module RosCodec {
  import opened Options
  import opened Bytes
  import opened Cdr
  import opened CdrStreams
  import opened RosMessages

  // ------------------------------------------------------------------- encoding

  method WriteHeader(cdr: CdrWriter, h: Header)
    requires cdr.Valid()
    modifies cdr
    ensures cdr.Valid() && cdr.fields == old(cdr.fields) + HeaderFields(h)
  {
    cdr.WriteI32(Signed32(Wrap32(h.stamp / NANOS)));
    cdr.WriteU32(h.stamp % NANOS);
    cdr.WriteStr(h.frameId);
  }

  method WriteImageBody(cdr: CdrWriter, m: Image)
    requires cdr.Valid()
    modifies cdr
    ensures cdr.Valid() && cdr.fields == old(cdr.fields) + ImageBody(m)
  {
    cdr.WriteU32(m.height);
    cdr.WriteU32(m.width);
    cdr.WriteStr(m.encoding);
    cdr.WriteU8(0);
    cdr.WriteU32(m.step);
    cdr.WriteOctets(m.pixels);
  }

  method EncodeImage(h: Header, m: Image) returns (message: Buffer)
    ensures message == Message(ImageFields(h, m))
  {
    hide Message;
    var cdr := new CdrWriter();
    WriteHeader(cdr, h);
    WriteImageBody(cdr, m);
    assert cdr.fields == ImageFields(h, m);
    return cdr.buffer;
  }

  method EncodeImu(h: Header, m: Imu) returns (message: Buffer)
    ensures message == Message(ImuFields(h, m))
  {
    hide Message;
    var cdr := new CdrWriter();
    WriteHeader(cdr, h);
    cdr.WriteF64Array(m.orientation);
    cdr.WriteF64Array(m.orientationCovariance);
    cdr.WriteF64Array(m.angularVelocity);
    cdr.WriteF64Array(m.angularVelocityCovariance);
    cdr.WriteF64Array(m.linearAcceleration);
    cdr.WriteF64Array(m.linearAccelerationCovariance);
    assert cdr.fields == ImuFields(h, m);
    return cdr.buffer;
  }

  method EncodeMagneticField(h: Header, m: MagneticField) returns (message: Buffer)
    ensures message == Message(MagneticFields(h, m))
  {
    hide Message;
    var cdr := new CdrWriter();
    WriteHeader(cdr, h);
    cdr.WriteF64Array(m.field);
    cdr.WriteF64Array(m.covariance);
    assert cdr.fields == MagneticFields(h, m);
    return cdr.buffer;
  }

  method EncodeFluidPressure(h: Header, m: FluidPressure) returns (message: Buffer)
    ensures message == Message(PressureFields(h, m))
  {
    hide Message;
    var cdr := new CdrWriter();
    WriteHeader(cdr, h);
    cdr.WriteF64(m.pressure);
    cdr.WriteF64(m.variance);
    assert cdr.fields == PressureFields(h, m);
    return cdr.buffer;
  }

  // ------------------------------------------------------------------- decoding

  /** sec, nanosec and the frame: what both decoders start with. */
  method ReadStamp(cdr: CdrReader) returns (sec: i32, nanosec: u32, frameId: Buffer)
    requires cdr.Valid()
    modifies cdr
    ensures cdr.Valid() && cdr.kinds == old(cdr.kinds) + HEADER_KINDS && (cdr.ok ==> old(cdr.ok))
    ensures cdr.values == old(cdr.values) + [I32(sec), U32(nanosec), Str(frameId)]
  {
    sec := cdr.ReadI32();
    nanosec := cdr.ReadU32();
    frameId := cdr.ReadStr();
  }

  /** read_header. */
  method ReadHeader(cdr: CdrReader) returns (h: Header, ghost sec: i32, ghost nanosec: u32)
    requires cdr.Valid()
    modifies cdr
    ensures cdr.Valid() && cdr.kinds == old(cdr.kinds) + HEADER_KINDS && (cdr.ok ==> old(cdr.ok))
    ensures cdr.values == old(cdr.values) + [I32(sec), U32(nanosec), Str(h.frameId)]
    ensures h == HeaderOf(sec, nanosec, h.frameId)
  {
    var s, n, frameId := ReadStamp(cdr);
    sec, nanosec := s, n;
    h := if s < 0 then Header(0, frameId) else Header(s * NANOS + n, frameId);
  }

  method ReadImageBody(cdr: CdrReader) returns (m: Image, ghost bigEndian: byte)
    requires cdr.Valid()
    modifies cdr
    ensures cdr.Valid() && cdr.kinds == old(cdr.kinds) + [KU32, KU32, KStr, KU8, KU32, KOctets]
    ensures cdr.ok ==> old(cdr.ok)
    ensures cdr.values == old(cdr.values) + [U32(m.height), U32(m.width), Str(m.encoding), U8(bigEndian),
                                             U32(m.step), Octets(m.pixels)]
  {
    hide GetAll, Open;
    var height := cdr.ReadU32();
    var width := cdr.ReadU32();
    var encoding := cdr.ReadStr();
    bigEndian := cdr.ReadU8();
    var step := cdr.ReadU32();
    var pixels := cdr.ReadOctets();
    m := Image(width, height, step, encoding, pixels);
  }

  method DecodeImageMessage(data: Buffer) returns (message: Option<(Header, Image)>)
    ensures message == DecodeImage(data)
  {
    hide GetAll, Open, Parse;
    var cdr := new CdrReader(data);
    var sec, nanosec, frameId := ReadStamp(cdr);
    var m, _ := ReadImageBody(cdr);
    assert cdr.kinds == IMAGE_KINDS;
    ReadIsParse(data, IMAGE_KINDS, cdr.View(), cdr.values);
    if !cdr.ok || sec < 0 {
      return None;
    }
    return Some((Header(sec * NANOS + nanosec, frameId), m));
  }

  /** A fixed array of doubles. */
  method ReadDoubles(cdr: CdrReader, n: nat) returns (values: seq<nat>)
    requires cdr.Valid()
    modifies cdr
    ensures cdr.Valid() && cdr.kinds == old(cdr.kinds) + [KF64Array(n)] && |values| == n
    ensures cdr.ok ==> old(cdr.ok) && cdr.values == old(cdr.values) + [F64Array(values)] && Within(8, values)
  {
    var out := new nat[n](i => 0);
    cdr.ReadF64Array(out);
    values := out[..];
    assert cdr.ok ==> F64Array(values) in cdr.values;
  }

  /** A vector and its covariance. */
  method ReadEstimate(cdr: CdrReader, n: nat) returns (values: seq<nat>, covariance: seq<nat>)
    requires cdr.Valid()
    modifies cdr
    ensures cdr.Valid() && cdr.kinds == old(cdr.kinds) + [KF64Array(n), KF64Array(9)]
    ensures |values| == n && |covariance| == 9
    ensures cdr.ok ==> old(cdr.ok) && cdr.values == old(cdr.values) + [F64Array(values), F64Array(covariance)]
    ensures cdr.ok ==> Within(8, values) && Within(8, covariance)
  {
    hide GetAll, Open;
    values := ReadDoubles(cdr, n);
    covariance := ReadDoubles(cdr, 9);
  }

  /** What a reader has read is what parsing yields. */
  lemma ReadIsParse(data: Buffer, kinds: seq<Kind>, at: Reader, values: seq<Field>)
    requires (at, values) == GetAll(Open(data), kinds)
    ensures Parse(data, kinds) == if at.ok then Some(values) else None
  {
  }

  method DecodeImuMessage(data: Buffer) returns (message: Option<(Header, Imu)>)
    ensures message == DecodeImu(data)
  {
    hide GetAll, Open, Parse, Rejoin;
    var cdr := new CdrReader(data);
    var h, _, _ := ReadHeader(cdr);
    var orientation, orientationCovariance := ReadEstimate(cdr, 4);
    var angular, angularCovariance := ReadEstimate(cdr, 3);
    var linear, linearCovariance := ReadEstimate(cdr, 3);
    assert cdr.kinds == IMU_KINDS;
    ReadIsParse(data, IMU_KINDS, cdr.View(), cdr.values);
    if !cdr.ok {
      return None;
    }
    return Some((h, Imu(orientation, orientationCovariance, angular, angularCovariance, linear, linearCovariance)));
  }

  method DecodeMagneticFieldMessage(data: Buffer) returns (message: Option<(Header, MagneticField)>)
    ensures message == DecodeMagneticField(data)
  {
    hide GetAll, Open, Parse, Rejoin;
    var cdr := new CdrReader(data);
    var h, _, _ := ReadHeader(cdr);
    var field, covariance := ReadEstimate(cdr, 3);
    assert cdr.kinds == MAGNETIC_KINDS;
    ReadIsParse(data, MAGNETIC_KINDS, cdr.View(), cdr.values);
    if !cdr.ok {
      return None;
    }
    return Some((h, MagneticField(field, covariance)));
  }

  method DecodeFluidPressureMessage(data: Buffer) returns (message: Option<(Header, FluidPressure)>)
    ensures message == DecodeFluidPressure(data)
  {
    hide GetAll, Open, Parse, Rejoin;
    var cdr := new CdrReader(data);
    var h, _, _ := ReadHeader(cdr);
    var pressure := cdr.ReadF64();
    var variance := cdr.ReadF64();
    assert cdr.kinds == PRESSURE_KINDS;
    ReadIsParse(data, PRESSURE_KINDS, cdr.View(), cdr.values);
    if !cdr.ok {
      return None;
    }
    return Some((h, FluidPressure(pressure, variance)));
  }
}
