/** What the CDR writer wrote, the reader reads back: for any list of fields, and
    exactly when every counted length fits its 32-bit count. */
module CdrRoundTrip {
  import opened Bytes
  import opened Cdr

  /** The counted lengths fit 32 bits. */
  predicate Fits(f: Field) {
    match f
    case Str(s) => |s| + 1 < 0x1_0000_0000
    case F32Seq(xs) => |xs| < 0x1_0000_0000
    case F64Seq(xs) => |xs| < 0x1_0000_0000
    case Octets(s) => |s| < 0x1_0000_0000
    case _ => true
  }

  /** When padding `n` by `k` is enough. */
  lemma PadEnough4(n: nat, k: nat)
    requires k <= (4 - n % 4) % 4
    ensures (n + k) % 4 == 0 <==> k == (4 - n % 4) % 4
  {
  }

  lemma PadEnough8(n: nat, k: nat)
    requires k <= (8 - n % 8) % 8
    ensures (n + k) % 8 == 0 <==> k == (8 - n % 8) % 8
  {
  }

  lemma PadEnough(length: nat, k: nat, size: nat)
    requires IsSize(size) && length >= ORIGIN && k <= Padding(length, size)
    ensures (length + k - ORIGIN) % size == 0 <==> k == Padding(length, size)
  {
    var n := length - ORIGIN;
    if size == 4 { PadEnough4(n, k); } else if size == 8 { PadEnough8(n, k); }
  }

  lemma RoundUp4(n: nat)
    ensures n + (4 - n % 4) % 4 == (n + 3) / 4 * 4
  {
  }

  lemma RoundUp8(n: nat)
    ensures n + (8 - n % 8) % 8 == (n + 7) / 8 * 8
  {
  }

  /** The padding loop and the closed form agree. */
  lemma PaddedIsAligned(buffer: Buffer, size: nat)
    requires |buffer| >= ORIGIN && IsSize(size)
    ensures |Padded(buffer, size)| == Aligned(|buffer|, size)
  {
    var n := |buffer| - ORIGIN;
    if size == 4 { RoundUp4(n); } else if size == 8 { RoundUp8(n); }
  }

  /** Bytes appended behind padding are found by an aligned read. */
  lemma RunFound(buffer: Buffer, size: nat, bytes: Buffer, data: Buffer)
    requires |buffer| >= ORIGIN && IsSize(size) && Padded(buffer, size) + bytes <= data
    ensures TakeRun(Reader(data, |buffer|, true), size, |bytes|)
            == (Reader(data, |Padded(buffer, size) + bytes|, true), bytes)
  {
    PaddedIsAligned(buffer, size);
    var from := |Padded(buffer, size)|;
    assert data[from..from + |bytes|] == (Padded(buffer, size) + bytes)[from..] == bytes;
  }

  lemma NumberFound(buffer: Buffer, size: nat, v: nat, data: Buffer)
    requires |buffer| >= ORIGIN && IsSize(size) && v < Limit(size) && Raw(buffer, size, v) <= data
    ensures TakeNumber(Reader(data, |buffer|, true), size) == (Reader(data, |Raw(buffer, size, v)|, true), v)
  {
    RunFound(buffer, size, Little(size, v), data);
    LimitIsPower(size);
    LittleNumber(size, v);
  }

  lemma {:induction false} AllNumbers(size: nat, values: seq<nat>)
    requires IsSize(size) && Within(size, values)
    ensures Numbers(size, |values|, All(size, values)) == values
  {
    if values != [] {
      var all := All(size, values);
      LimitIsPower(size);
      LittleNumber(size, values[0]);
      AllNumbers(size, values[1..]);
      assert size * |values| == size + size * |values[1..]|;
      assert all[..size] == Little(size, values[0]) && all[size..] == All(size, values[1..]);
    }
  }

  lemma ArrayFound(buffer: Buffer, size: nat, values: seq<nat>, data: Buffer)
    requires |buffer| >= ORIGIN && IsSize(size) && Run(buffer, size, values) <= data
    requires Within(size, values)
    ensures TakeArray(Reader(data, |buffer|, true), size, |values|)
            == (Reader(data, |Run(buffer, size, values)|, true), values)
  {
    if values != [] {
      RunFound(buffer, size, All(size, values), data);
      AllNumbers(size, values);
    }
  }

  lemma SeqFound(buffer: Buffer, size: nat, values: seq<nat>, data: Buffer)
    requires |buffer| >= ORIGIN && IsSize(size) && |values| < 0x1_0000_0000
    requires Within(size, values)
    requires Run(Raw(buffer, 4, |values|), size, values) <= data
    ensures TakeSeq(Reader(data, |buffer|, true), size, |values|)
            == (Reader(data, |Run(Raw(buffer, 4, |values|), size, values)|, true), values)
  {
    var counted := Raw(buffer, 4, |values|);
    NumberFound(buffer, 4, |values|, data);
    ArrayFound(counted, size, values, data);
  }

  lemma OctetsFound(buffer: Buffer, s: Buffer, data: Buffer)
    requires |buffer| >= ORIGIN && |s| < 0x1_0000_0000 && Raw(buffer, 4, |s|) + s <= data
    ensures TakeOctets(Reader(data, |buffer|, true)) == (Reader(data, |Raw(buffer, 4, |s|) + s|, true), s)
  {
    NumberFound(buffer, 4, |s|, data);
    var counted := Raw(buffer, 4, |s|);
    assert data[|counted|..|counted| + |s|] == (counted + s)[|counted|..] == s;
  }

  lemma StrFound(buffer: Buffer, s: Buffer, data: Buffer)
    requires |buffer| >= ORIGIN && |s| + 1 < 0x1_0000_0000 && Raw(buffer, 4, |s| + 1) + s + [0] <= data
    ensures TakeStr(Reader(data, |buffer|, true)) == (Reader(data, |Raw(buffer, 4, |s| + 1) + s + [0]|, true), s)
  {
    NumberFound(buffer, 4, |s| + 1, data);
    var counted := Raw(buffer, 4, |s| + 1);
    assert data[|counted|..|counted| + |s|] == (counted + s + [0])[|counted|..|counted| + |s|] == s;
  }

  /** The number a field is written as. */
  function AsNumber(f: Field): (v: nat)
    requires IsNumber(KindOf(f))
    ensures v < Limit(SizeOf(KindOf(f)))
  {
    match f
    case U8(v) => v
    case Bool(v) => if v then 1 else 0
    case I32(v) => Wrap32(v)
    case U32(v) => v
    case I64(v) => Wrap64(v)
    case U64(v) => v
    case F32(v) => v
    case F64(v) => v
  }

  lemma SignKept(x: i32, y: i64)
    ensures Signed32(Wrap32(x)) == x && Signed64(Wrap64(y)) == y
  {
  }

  lemma NumberPut(buffer: Buffer, f: Field)
    requires |buffer| >= ORIGIN && IsNumber(KindOf(f))
    ensures Put(buffer, f) == Raw(buffer, SizeOf(KindOf(f)), AsNumber(f))
  {
    hide Raw, Wrap32, Wrap64;
  }

  lemma NumberKept(f: Field)
    requires IsNumber(KindOf(f))
    ensures FromNumber(KindOf(f), AsNumber(f)) == f
  {
    match f
    case I32(v) => SignKept(v, 0);
    case I64(v) => SignKept(0, v);
    case _ =>
  }

  lemma GetPutNumber(buffer: Buffer, f: Field, data: Buffer)
    requires |buffer| >= ORIGIN && IsNumber(KindOf(f)) && Put(buffer, f) <= data
    ensures Get(Reader(data, |buffer|, true), KindOf(f)) == (Reader(data, |Put(buffer, f)|, true), f)
  {
    hide Put, TakeNumber, Raw, FromNumber, AsNumber;
    NumberPut(buffer, f);
    NumberKept(f);
    NumberFound(buffer, SizeOf(KindOf(f)), AsNumber(f), data);
  }

  lemma GetPutNumbers(buffer: Buffer, f: Field, data: Buffer)
    requires |buffer| >= ORIGIN && f.Typed() && Fits(f) && Put(buffer, f) <= data
    requires f.F32Array? || f.F64Array? || f.F32Seq? || f.F64Seq?
    ensures Get(Reader(data, |buffer|, true), KindOf(f)) == (Reader(data, |Put(buffer, f)|, true), f)
  {
    hide TakeArray, TakeSeq, Raw, Run;
    match f
    case F32Array(xs) => ArrayFound(buffer, 4, xs, data);
    case F64Array(xs) => ArrayFound(buffer, 8, xs, data);
    case F32Seq(xs) => SeqFound(buffer, 4, xs, data);
    case F64Seq(xs) => SeqFound(buffer, 8, xs, data);
  }

  /** One field: what was put is got, and the reader stands where the writer
      stood. */
  lemma GetPut(buffer: Buffer, f: Field, data: Buffer)
    requires |buffer| >= ORIGIN && f.Typed() && Fits(f) && Put(buffer, f) <= data
    ensures Get(Reader(data, |buffer|, true), KindOf(f)) == (Reader(data, |Put(buffer, f)|, true), f)
  {
    hide TakeStr, TakeOctets, Raw;
    match f
    case Str(s) => StrFound(buffer, s, data);
    case Octets(s) => OctetsFound(buffer, s, data);
    case _ => hide Get, Put;
              if IsNumber(KindOf(f)) { GetPutNumber(buffer, f, data); } else { GetPutNumbers(buffer, f, data); }
  }

  /** A length too large for its count never comes back. */
  lemma GetPutTooLong(buffer: Buffer, f: Field, data: Buffer)
    requires |buffer| >= ORIGIN && !Fits(f) && Put(buffer, f) <= data
    ensures Get(Reader(data, |buffer|, true), KindOf(f)).1 != f
  {
    hide Raw;
    match f
    case Str(s) => NumberFound(buffer, 4, Wrap32(|s| + 1), data);
    case F32Seq(xs) => NumberFound(buffer, 4, Wrap32(|xs|), data);
    case F64Seq(xs) => NumberFound(buffer, 4, Wrap32(|xs|), data);
    case Octets(s) => NumberFound(buffer, 4, Wrap32(|s|), data);
  }

  lemma {:induction false} GetAllPutAll(buffer: Buffer, fields: seq<Field>)
    requires |buffer| >= ORIGIN && forall f | f in fields :: f.Typed()
    ensures var data := PutAll(buffer, fields);
            var (end, values) := GetAll(Reader(data, |buffer|, |buffer| <= |data|), KindsOf(fields));
            && |buffer| <= |data|
            && ((forall f | f in fields :: Fits(f)) ==> values == fields && end.Exhausted())
            && ((exists f | f in fields :: !Fits(f)) ==> values != fields)
    decreases |fields|
  {
    var data := PutAll(buffer, fields);
    PutAllGrows(buffer, fields);
    if fields != [] {
      var f, rest := fields[0], fields[1..];
      PutGrows(buffer, f);
      var next := Put(buffer, f);
      PutAllGrows(next, rest);
      assert KindsOf(fields)[1..] == KindsOf(rest);
      if Fits(f) {
        GetPut(buffer, f, data);
        GetAllPutAll(next, rest);
        assert fields == [f] + rest;
      } else {
        GetPutTooLong(buffer, f, data);
        assert f in fields;
      }
    }
  }

  /** Any list of fields comes back as it went in, with nothing left over, exactly
      when every counted length fits. */
  lemma RoundTrip(fields: seq<Field>)
    requires forall f | f in fields :: f.Typed()
    ensures var (end, values) := GetAll(Open(Message(fields)), KindsOf(fields));
            && (values == fields <==> forall f | f in fields :: Fits(f))
            && (values == fields ==> end.Exhausted())
  {
    GetAllPutAll(HEADER, fields);
    PutAllGrows(HEADER, fields);
  }

  // ------------------------------------------------------------- foreign bytes

  /** What a failed read yields. */
  function Nothing(k: Kind): Field {
    match k
    case KU8 => U8(0)
    case KBool => Bool(false)
    case KI32 => I32(0)
    case KU32 => U32(0)
    case KI64 => I64(0)
    case KU64 => U64(0)
    case KF32 => F32(0)
    case KF64 => F64(0)
    case KStr => Str([])
    case KF32Array(_) => F32Array([])
    case KF64Array(_) => F64Array([])
    case KF32Seq(_) => F32Seq([])
    case KF64Seq(_) => F64Seq([])
    case KOctets => Octets([])
  }

  ghost predicate Forward(r: Reader, k: Kind)
    requires r.Valid()
  {
    var (next, value) := Get(r, k);
    next.Valid() && r.at <= next.at <= |r.data| == |next.data| && (!next.ok ==> value == Nothing(k))
  }

  lemma NumberForward(r: Reader, k: Kind)
    requires r.Valid() && r.ok && IsNumber(k)
    ensures Forward(r, k)
  {
  }

  lemma ArrayForward(r: Reader, k: Kind)
    requires r.Valid() && r.ok && !IsNumber(k)
    ensures Forward(r, k)
  {
  }

  lemma ReadForward(r: Reader, k: Kind)
    requires r.Valid() && r.ok
    ensures Forward(r, k)
  {
    hide Forward;
    if IsNumber(k) { NumberForward(r, k); } else { ArrayForward(r, k); }
  }

  lemma StuckRead(r: Reader, k: Kind)
    requires r.Valid() && !r.ok
    ensures Get(r, k) == (r, Nothing(k))
  {
  }

  function Nothings(kinds: seq<Kind>): seq<Field> {
    if kinds == [] then [] else [Nothing(kinds[0])] + Nothings(kinds[1..])
  }

  /** A failure sticks: whatever is read after it yields nothing and moves
      nothing, and the message never counts as read to its end. */
  lemma {:induction false} FailureSticks(r: Reader, kinds: seq<Kind>)
    requires r.Valid() && !r.ok
    ensures GetAll(r, kinds) == (r, Nothings(kinds)) && !GetAll(r, kinds).0.Exhausted()
    decreases |kinds|
  {
    hide Get;
    if kinds != [] {
      StuckRead(r, kinds[0]);
      FailureSticks(r, kinds[1..]);
    }
  }

  /** The reads of `kinds` from `r` on are good up to the `n`-th and yield nothing
      behind it. */
  ghost predicate GoodUpTo(r: Reader, kinds: seq<Kind>, n: nat)
    requires r.Valid() && n <= |kinds|
  {
    && GetAll(r, kinds[..n]).0.ok
    && GetAll(r, kinds).1 == GetAll(r, kinds[..n]).1 + Nothings(kinds[n..])
  }

  /** On arbitrary bytes: reading never goes back and never passes the end; and what
      is read is good up to some field, all of them if the reader says so, and
      nothing behind it. */
  lemma {:induction false} ReadsStayInside(r: Reader, kinds: seq<Kind>) returns (n: nat)
    requires r.Valid() && r.ok
    ensures var end := GetAll(r, kinds).0;
            r.at <= end.at <= |r.data| && n <= |kinds| && (end.ok <==> n == |kinds|)
    ensures GoodUpTo(r, kinds, n)
    decreases |kinds|
  {
    hide Get;
    if kinds == [] {
      return 0;
    }
    ReadForward(r, kinds[0]);
    var next := Get(r, kinds[0]).0;
    if !next.ok {
      FailureSticks(next, kinds[1..]);
      return 0;
    }
    var m := ReadsStayInside(next, kinds[1..]);
    n := m + 1;
    assert kinds[..n][1..] == kinds[1..][..m] && kinds[n..] == kinds[1..][m..];
  }
}
