/** CDR as this project writes and reads it: little-endian, every primitive aligned
    to its own size counted from behind the 4-byte encapsulation header. The
    writer pads byte by byte, the reader computes the aligned position. */
module Cdr {
  import opened Bytes

  /** Encapsulation: plain CDR, little-endian, no options. */
  const HEADER: Buffer := [0, 1, 0, 0]
  const ORIGIN: nat := 4

  // ------------------------------------------------------------ little-endian

  function Pow256(n: nat): (p: nat)
    ensures p >= 1
  {
    if n == 0 then 1 else 256 * Pow256(n - 1)
  }

  /** The low `n` bytes of a number, lowest first. */
  function Little(n: nat, v: nat): (r: Buffer)
    ensures |r| == n
  {
    if n == 0 then [] else [v % 256] + Little(n - 1, v / 256)
  }

  function Number(bytes: Buffer): nat {
    if bytes == [] then 0 else bytes[0] + 256 * Number(bytes[1..])
  }

  lemma {:induction false} LittleNumber(n: nat, v: nat)
    requires v < Pow256(n)
    ensures Number(Little(n, v)) == v
  {
    if n > 0 {
      LittleNumber(n - 1, v / 256);
      assert Little(n, v)[1..] == Little(n - 1, v / 256);
    }
  }

  lemma {:induction false} NumberBounded(bytes: Buffer)
    ensures Number(bytes) < Pow256(|bytes|)
  {
    if bytes != [] {
      NumberBounded(bytes[1..]);
    }
  }

  /** The sizes of CDR's numbers, and the numbers that fit them. */
  predicate IsSize(n: nat) {
    n == 1 || n == 4 || n == 8
  }

  function Limit(size: nat): nat
    requires IsSize(size)
  {
    if size == 1 then 0x100 else if size == 4 then 0x1_0000_0000 else 0x1_0000_0000_0000_0000
  }

  lemma LimitIsPower(size: nat)
    requires IsSize(size)
    ensures Limit(size) == Pow256(size)
  {
    assert Pow256(2) == 0x1_0000 && Pow256(3) == 0x100_0000;
    assert Pow256(5) == 0x100_0000_0000 && Pow256(6) == 0x1_0000_0000_0000 && Pow256(7) == 0x100_0000_0000_0000;
  }

  // ------------------------------------------------------------------- fields

  type u32 = x: int | 0 <= x < 0x1_0000_0000
  type u64 = x: int | 0 <= x < 0x1_0000_0000_0000_0000
  type i32 = x: int | -0x8000_0000 <= x < 0x8000_0000
  type i64 = x: int | -0x8000_0000_0000_0000 <= x < 0x8000_0000_0000_0000

  /** Floating-point values are their bit patterns: only copied, never computed
      with. Strings are their bytes. */
  datatype Field =
    | U8(u8: byte)
    | Bool(b: bool)
    | I32(int32: i32)
    | U32(uint32: u32)
    | I64(int64: i64)
    | U64(uint64: u64)
    | F32(float: u32)
    | F64(double: u64)
    | Str(chars: Buffer)
    | F32Array(floats: seq<nat>)
    | F64Array(doubles: seq<nat>)
    | F32Seq(floatSeq: seq<nat>)
    | F64Seq(doubleSeq: seq<nat>)
    | Octets(octets: Buffer)
  {
    /** Array elements are as wide as their type. */
    predicate Typed() {
      match this
      case F32Array(xs) => Within(4, xs)
      case F64Array(xs) => Within(8, xs)
      case F32Seq(xs) => Within(4, xs)
      case F64Seq(xs) => Within(8, xs)
      case _ => true
    }
  }

  predicate Within(size: nat, xs: seq<nat>)
    requires IsSize(size)
  {
    forall i | 0 <= i < |xs| :: xs[i] < Limit(size)
  }

  function Wrap32(x: int): (r: u32) {
    x % 0x1_0000_0000
  }

  function Wrap64(x: int): (r: u64) {
    x % 0x1_0000_0000_0000_0000
  }

  function Signed32(x: u32): (r: i32) {
    if x >= 0x8000_0000 then x - 0x1_0000_0000 else x
  }

  function Signed64(x: u64): (r: i64) {
    if x >= 0x8000_0000_0000_0000 then x - 0x1_0000_0000_0000_0000 else x
  }

  // ------------------------------------------------------------------- writing

  function Padding(length: nat, align: nat): nat
    requires align > 0 && length >= ORIGIN
  {
    (align - (length - ORIGIN) % align) % align
  }

  function Padded(buffer: Buffer, align: nat): Buffer
    requires align > 0 && |buffer| >= ORIGIN
  {
    buffer + Zeros(Padding(|buffer|, align))
  }

  function Raw(buffer: Buffer, size: nat, v: nat): Buffer
    requires size > 0 && |buffer| >= ORIGIN
  {
    Padded(buffer, size) + Little(size, v)
  }

  function All(size: nat, values: seq<nat>): (r: Buffer)
    ensures |r| == size * |values|
  {
    if values == [] then [] else
      var rest := All(size, values[1..]);
      assert size * |values| == size + size * |values[1..]|;
      Little(size, values[0]) + rest
  }

  function Run(buffer: Buffer, size: nat, values: seq<nat>): Buffer
    requires size > 0 && |buffer| >= ORIGIN
  {
    if values == [] then buffer else Padded(buffer, size) + All(size, values)
  }

  /** The buffer after a field is written. */
  function Put(buffer: Buffer, f: Field): Buffer
    requires |buffer| >= ORIGIN
  {
    match f
    case U8(v) => Raw(buffer, 1, v)
    case Bool(v) => Raw(buffer, 1, if v then 1 else 0)
    case I32(v) => Raw(buffer, 4, Wrap32(v))
    case U32(v) => Raw(buffer, 4, v)
    case I64(v) => Raw(buffer, 8, Wrap64(v))
    case U64(v) => Raw(buffer, 8, v)
    case F32(v) => Raw(buffer, 4, v)
    case F64(v) => Raw(buffer, 8, v)
    case Str(s) => Raw(buffer, 4, Wrap32(|s| + 1)) + s + [0]
    case F32Array(xs) => Run(buffer, 4, xs)
    case F64Array(xs) => Run(buffer, 8, xs)
    case F32Seq(xs) => Run(Raw(buffer, 4, Wrap32(|xs|)), 4, xs)
    case F64Seq(xs) => Run(Raw(buffer, 4, Wrap32(|xs|)), 8, xs)
    case Octets(s) => Raw(buffer, 4, Wrap32(|s|)) + s
  }

  function PutAll(buffer: Buffer, fields: seq<Field>): Buffer
    requires |buffer| >= ORIGIN
    decreases |fields|
  {
    if fields == [] then buffer else
      PutGrows(buffer, fields[0]);
      PutAll(Put(buffer, fields[0]), fields[1..])
  }

  lemma PutGrows(buffer: Buffer, f: Field)
    requires |buffer| >= ORIGIN
    ensures buffer <= Put(buffer, f)
  {
  }

  lemma {:induction false} PutAllGrows(buffer: Buffer, fields: seq<Field>)
    requires |buffer| >= ORIGIN
    ensures buffer <= PutAll(buffer, fields)
    decreases |fields|
  {
    if fields != [] {
      PutGrows(buffer, fields[0]);
      PutAllGrows(Put(buffer, fields[0]), fields[1..]);
    }
  }

  /** The message that carries these fields. */
  function Message(fields: seq<Field>): (buffer: Buffer)
    ensures |buffer| >= ORIGIN
  {
    PutAllGrows(HEADER, fields);
    PutAll(HEADER, fields)
  }

  /** One field more. */
  lemma {:induction false} PutOneMore(buffer: Buffer, fields: seq<Field>, f: Field)
    requires |buffer| >= ORIGIN
    ensures |PutAll(buffer, fields)| >= ORIGIN
    ensures PutAll(buffer, fields + [f]) == Put(PutAll(buffer, fields), f)
    decreases |fields|
  {
    PutGrows(buffer, f);
    if fields == [] {
      assert fields + [f] == [f];
      assert PutAll(Put(buffer, f), []) == Put(buffer, f);
    } else {
      PutGrows(buffer, fields[0]);
      assert (fields + [f])[1..] == fields[1..] + [f];
      PutOneMore(Put(buffer, fields[0]), fields[1..], f);
    }
  }

  // ------------------------------------------------------------------- reading

  datatype Reader = Reader(data: Buffer, at: nat, ok: bool) {
    ghost predicate Valid() {
      ok ==> ORIGIN <= at <= |data|
    }

    predicate Exhausted() {
      ok && at == |data|
    }

    function Failed(): Reader {
      this.(ok := false)
    }
  }

  function Open(data: Buffer): (r: Reader)
    ensures r.Valid()
  {
    if |data| < ORIGIN then Reader(data, 0, false) else Reader(data, ORIGIN, true)
  }

  /** The position a value of this size starts at. */
  function Aligned(at: nat, align: nat): nat
    requires align > 0 && at >= ORIGIN
  {
    ORIGIN + (at - ORIGIN + align - 1) / align * align
  }

  /** `n` bytes from the next position aligned for elements of `size`. */
  function TakeRun(r: Reader, size: nat, n: nat): (t: (Reader, Buffer))
    requires r.Valid() && IsSize(size)
    ensures t.0.Valid() && t.0.data == r.data && (t.0.ok ==> r.ok && |t.1| == n)
  {
    if !r.ok || Aligned(r.at, size) + n > |r.data| then (r.Failed(), [])
    else
      var from := Aligned(r.at, size);
      assert (r.at - ORIGIN + size - 1) / size * size >= 0;
      (Reader(r.data, from + n, true), r.data[from..from + n])
  }

  function TakeNumber(r: Reader, size: nat): (t: (Reader, nat))
    requires r.Valid() && IsSize(size)
    ensures t.0.Valid() && t.0.data == r.data && t.1 < Limit(size) && (t.0.ok ==> r.ok)
  {
    var (next, bytes) := TakeRun(r, size, size);
    if next.ok then
      NumberBounded(bytes);
      LimitIsPower(size);
      (next, Number(bytes))
    else (next, 0)
  }

  function Numbers(size: nat, count: nat, bytes: Buffer): (r: seq<nat>)
    requires |bytes| == size * count && IsSize(size)
    ensures |r| == count && Within(size, r)
    decreases count
  {
    if count == 0 then [] else
      assert size * count == size + size * (count - 1);
      NumberBounded(bytes[..size]);
      LimitIsPower(size);
      [Number(bytes[..size])] + Numbers(size, count - 1, bytes[size..])
  }

  /** A fixed-size array. An empty one reads nothing, a failed one leaves the
      caller's array alone, here shown as no elements. */
  function TakeArray(r: Reader, size: nat, count: nat): (t: (Reader, seq<nat>))
    requires r.Valid() && IsSize(size)
    ensures t.0.Valid() && t.0.data == r.data && (t.0.ok ==> r.ok && |t.1| == count)
    ensures Within(size, t.1)
  {
    if count == 0 then (r, [])
    else
      var (next, bytes) := TakeRun(r, size, size * count);
      if next.ok then (next, Numbers(size, count, bytes)) else (next, [])
  }

  /** A sequence whose count must be the expected one. */
  function TakeSeq(r: Reader, size: nat, count: nat): (t: (Reader, seq<nat>))
    requires r.Valid() && IsSize(size)
    ensures t.0.Valid() && t.0.data == r.data && (t.0.ok ==> r.ok && |t.1| == count)
    ensures Within(size, t.1)
  {
    var (next, n) := TakeNumber(r, 4);
    if !next.ok || n != count then (next.Failed(), []) else TakeArray(next, size, count)
  }

  /** A string: the count includes the terminator, so zero is malformed. */
  function TakeStr(r: Reader): (t: (Reader, Buffer))
    requires r.Valid()
    ensures t.0.Valid() && t.0.data == r.data && (t.0.ok ==> r.ok)
  {
    var (next, len) := TakeNumber(r, 4);
    if !next.ok || len == 0 || next.at + len > |r.data| then (next.Failed(), [])
    else (next.(at := next.at + len), r.data[next.at..next.at + len - 1])
  }

  function TakeOctets(r: Reader): (t: (Reader, Buffer))
    requires r.Valid()
    ensures t.0.Valid() && t.0.data == r.data && (t.0.ok ==> r.ok)
  {
    var (next, n) := TakeNumber(r, 4);
    if !next.ok || next.at + n > |r.data| then (next.Failed(), [])
    else (next.(at := next.at + n), r.data[next.at..next.at + n])
  }

  /** The type of a field, and the count the reader expects where it expects one. */
  datatype Kind =
    | KU8 | KBool | KI32 | KU32 | KI64 | KU64 | KF32 | KF64 | KStr
    | KF32Array(count: nat) | KF64Array(count: nat) | KF32Seq(count: nat) | KF64Seq(count: nat) | KOctets

  function KindOf(f: Field): Kind {
    match f
    case U8(_) => KU8
    case Bool(_) => KBool
    case I32(_) => KI32
    case U32(_) => KU32
    case I64(_) => KI64
    case U64(_) => KU64
    case F32(_) => KF32
    case F64(_) => KF64
    case Str(_) => KStr
    case F32Array(xs) => KF32Array(|xs|)
    case F64Array(xs) => KF64Array(|xs|)
    case F32Seq(xs) => KF32Seq(|xs|)
    case F64Seq(xs) => KF64Seq(|xs|)
    case Octets(_) => KOctets
  }

  /** Bytes a number of this kind takes. */
  function SizeOf(k: Kind): nat {
    match k
    case KU8 => 1
    case KBool => 1
    case KI32 => 4
    case KU32 => 4
    case KI64 => 8
    case KU64 => 8
    case KF32 => 4
    case KF64 => 8
    case _ => 0   // not a number
  }

  function FromNumber(k: Kind, v: nat): (f: Field)
    requires IsNumber(k) && v < Limit(SizeOf(k))
    ensures KindOf(f) == k
  {
    match k
    case KU8 => U8(v)
    case KBool => Bool(v != 0)
    case KI32 => I32(Signed32(v))
    case KU32 => U32(v)
    case KI64 => I64(Signed64(v))
    case KU64 => U64(v)
    case KF32 => F32(v)
    case KF64 => F64(v)
  }

  function GetNumber(r: Reader, k: Kind): (t: (Reader, Field))
    requires r.Valid() && IsNumber(k)
    ensures t.0.Valid() && t.0.data == r.data && (t.0.ok ==> r.ok) && KindOf(t.1) == k
  {
    var (n, v) := TakeNumber(r, SizeOf(k));
    (n, FromNumber(k, v))
  }

  predicate IsNumber(k: Kind) {
    IsSize(SizeOf(k))
  }

  /** Reading a field of a kind. */
  function Get(r: Reader, k: Kind): (t: (Reader, Field))
    requires r.Valid()
    ensures t.0.Valid() && t.0.data == r.data && t.1.Typed() && (t.0.ok ==> r.ok && KindOf(t.1) == k)
  {
    match k
    case KStr => var (n, s) := TakeStr(r); (n, Str(s))
    case KF32Array(c) => var (n, xs) := TakeArray(r, 4, c); (n, F32Array(xs))
    case KF64Array(c) => var (n, xs) := TakeArray(r, 8, c); (n, F64Array(xs))
    case KF32Seq(c) => var (n, xs) := TakeSeq(r, 4, c); (n, F32Seq(xs))
    case KF64Seq(c) => var (n, xs) := TakeSeq(r, 8, c); (n, F64Seq(xs))
    case KOctets => var (n, s) := TakeOctets(r); (n, Octets(s))
    case _ => GetNumber(r, k)
  }

  function GetAll(r: Reader, kinds: seq<Kind>): (t: (Reader, seq<Field>))
    requires r.Valid()
    ensures t.0.Valid() && t.0.data == r.data && |t.1| == |kinds|
    ensures (t.0.ok ==> r.ok && KindsOf(t.1) == kinds) && forall f | f in t.1 :: f.Typed()
    decreases |kinds|
  {
    if kinds == [] then (r, []) else
      var (next, f) := Get(r, kinds[0]);
      var (last, rest) := GetAll(next, kinds[1..]);
      KindsOneMore(f, rest);
      (last, [f] + rest)
  }

  lemma KindsOneMore(f: Field, rest: seq<Field>)
    ensures KindsOf([f] + rest) == [KindOf(f)] + KindsOf(rest)
  {
  }

  function KindsOf(fields: seq<Field>): seq<Kind> {
    seq(|fields|, i requires 0 <= i < |fields| => KindOf(fields[i]))
  }

  lemma {:induction false} GetOneMore(r: Reader, kinds: seq<Kind>, k: Kind)
    requires r.Valid()
    ensures var (mid, values) := GetAll(r, kinds);
            GetAll(r, kinds + [k]) == (Get(mid, k).0, values + [Get(mid, k).1])
    decreases |kinds|
  {
    var (next, f) := Get(r, (kinds + [k])[0]);
    if kinds == [] {
      assert kinds + [k] == [k] && [k][1..] == [];
      assert GetAll(next, []) == (next, []);
      assert [f] + [] == [] + [f];
    } else {
      assert (kinds + [k])[1..] == kinds[1..] + [k];
      GetOneMore(next, kinds[1..], k);
      var (mid, values) := GetAll(next, kinds[1..]);
      assert [f] + (values + [Get(mid, k).1]) == [f] + values + [Get(mid, k).1];
    }
  }
}
