/** The CDR writer, which appends to a growing buffer and pads in a loop, and the
    CDR reader, which moves through bytes it does not trust. Each keeps, as
    history, the fields it wrote or read. */
module CdrStreams {
  import opened Bytes
  import opened Cdr
  import CdrRoundTrip

  class CdrWriter {
    var buffer: Buffer
    ghost var fields: seq<Field>

    /** The buffer is the message that carries the fields written. */
    ghost predicate Valid()
      reads this
    {
      buffer == Message(fields)
    }

    constructor ()
      ensures Valid() && fields == []
    {
      buffer := Cdr.HEADER;
      fields := [];
    }

    /** Empties the message. */
    method Clear()
      modifies this
      ensures Valid() && fields == []
    {
      buffer := Cdr.HEADER;
      fields := [];
    }

    ghost method Note(f: Field)
      requires buffer == Put(Message(fields), f)
      modifies this`fields
      ensures Valid() && fields == old(fields) + [f]
    {
      PutOneMore(Cdr.HEADER, fields, f);
      fields := fields + [f];
    }

    method Align(to: nat)
      requires |buffer| >= ORIGIN && IsSize(to)
      modifies this`buffer
      ensures buffer == Padded(old(buffer), to)
    {
      ghost var k := 0;
      CdrRoundTrip.PadEnough(|buffer|, k, to);
      hide Padding;
      while (|buffer| - ORIGIN) % to != 0
        invariant |buffer| >= ORIGIN && k <= Padding(|old(buffer)|, to) && buffer == old(buffer) + Zeros(k)
        invariant (|buffer| - ORIGIN) % to == 0 <==> k == Padding(|old(buffer)|, to)
        decreases Padding(|old(buffer)|, to) - k
      {
        buffer := buffer + [0];
        k := k + 1;
        CdrRoundTrip.PadEnough(|old(buffer)|, k, to);
      }
    }

    /** A number of `size` bytes, as memory holds it on a little-endian machine. */
    method RawNumber(size: nat, v: nat)
      requires |buffer| >= ORIGIN && IsSize(size)
      modifies this`buffer
      ensures buffer == Raw(old(buffer), size, v)
    {
      Align(size);
      buffer := buffer + Little(size, v);
    }

    method RunNumbers(values: seq<nat>, size: nat)
      requires |buffer| >= ORIGIN && IsSize(size)
      modifies this`buffer
      ensures buffer == Run(old(buffer), size, values)
    {
      if |values| == 0 {
        return;
      }
      Align(size);
      buffer := buffer + All(size, values);
    }

    method WriteU8(v: byte)
      requires Valid()
      modifies this
      ensures Valid() && fields == old(fields) + [U8(v)]
    {
      RawNumber(1, v);
      Note(U8(v));
    }

    method WriteBool(v: bool)
      requires Valid()
      modifies this
      ensures Valid() && fields == old(fields) + [Bool(v)]
    {
      RawNumber(1, if v then 1 else 0);
      Note(Bool(v));
    }

    method WriteI32(v: i32)
      requires Valid()
      modifies this
      ensures Valid() && fields == old(fields) + [I32(v)]
    {
      RawNumber(4, Wrap32(v));
      Note(I32(v));
    }

    method WriteU32(v: u32)
      requires Valid()
      modifies this
      ensures Valid() && fields == old(fields) + [U32(v)]
    {
      RawNumber(4, v);
      Note(U32(v));
    }

    method WriteI64(v: i64)
      requires Valid()
      modifies this
      ensures Valid() && fields == old(fields) + [I64(v)]
    {
      RawNumber(8, Wrap64(v));
      Note(I64(v));
    }

    method WriteU64(v: u64)
      requires Valid()
      modifies this
      ensures Valid() && fields == old(fields) + [U64(v)]
    {
      RawNumber(8, v);
      Note(U64(v));
    }

    method WriteF32(v: u32)
      requires Valid()
      modifies this
      ensures Valid() && fields == old(fields) + [F32(v)]
    {
      RawNumber(4, v);
      Note(F32(v));
    }

    method WriteF64(v: u64)
      requires Valid()
      modifies this
      ensures Valid() && fields == old(fields) + [F64(v)]
    {
      RawNumber(8, v);
      Note(F64(v));
    }

    method WriteStr(s: Buffer)
      requires Valid()
      modifies this
      ensures Valid() && fields == old(fields) + [Str(s)]
    {
      RawNumber(4, Wrap32(|s| + 1));
      if s != [] { buffer := buffer + s; }
      buffer := buffer + [0];
      Note(Str(s));
    }

    method WriteF64Array(v: seq<nat>)
      requires Valid()
      modifies this
      ensures Valid() && fields == old(fields) + [F64Array(v)]
    {
      RunNumbers(v, 8);
      Note(F64Array(v));
    }

    method WriteF64Seq(v: seq<nat>)
      requires Valid()
      modifies this
      ensures Valid() && fields == old(fields) + [F64Seq(v)]
    {
      RawNumber(4, Wrap32(|v|));
      RunNumbers(v, 8);
      Note(F64Seq(v));
    }

    method WriteF32Array(v: seq<nat>)
      requires Valid()
      modifies this
      ensures Valid() && fields == old(fields) + [F32Array(v)]
    {
      RunNumbers(v, 4);
      Note(F32Array(v));
    }

    method WriteF32Seq(v: seq<nat>)
      requires Valid()
      modifies this
      ensures Valid() && fields == old(fields) + [F32Seq(v)]
    {
      RawNumber(4, Wrap32(|v|));
      RunNumbers(v, 4);
      Note(F32Seq(v));
    }

    /** bool[]: the octets a reader of bytes gets back. */
    method WriteBoolSeq(v: seq<bool>)
      requires Valid()
      modifies this
      ensures Valid() && fields == old(fields) + [Octets(Flags(v))]
    {
      RawNumber(4, Wrap32(|v|));
      ghost var counted := buffer;
      var i := 0;
      while i < |v|
        invariant i <= |v| && buffer == counted + Flags(v[..i]) && fields == old(fields)
      {
        buffer := buffer + [if v[i] then 1 else 0];
        i := i + 1;
      }
      assert v[..i] == v;
      Note(Octets(Flags(v)));
    }

    method WriteOctets(s: Buffer)
      requires Valid()
      modifies this
      ensures Valid() && fields == old(fields) + [Octets(s)]
    {
      RawNumber(4, Wrap32(|s|));
      buffer := buffer + s;
      Note(Octets(s));
    }
  }

  function Flags(v: seq<bool>): (r: Buffer)
    ensures |r| == |v|
  {
    seq(|v|, i requires 0 <= i < |v| => if v[i] then 1 else 0)
  }

  class CdrReader {
    const data: Buffer
    var at: nat
    var ok: bool
    ghost var kinds: seq<Kind>
    ghost var values: seq<Field>

    ghost function View(): Reader
      reads this
    {
      Reader(data, at, ok)
    }

    /** What was read is what reading these kinds from the front yields. */
    ghost predicate Valid()
      reads this
      ensures Valid() ==> View().Valid()
    {
      (View(), values) == GetAll(Open(data), kinds)
    }

    constructor (data: Buffer)
      ensures Valid() && this.data == data && kinds == []
    {
      this.data, at, ok := data, 0, true;
      if |data| < 4 {
        ok := false;
      } else {
        at := 4;
      }
      kinds, values := [], [];
    }

    ghost method Note(before: Reader, k: Kind)
      requires before.Valid() && (before, values) == GetAll(Open(data), kinds)
      requires View() == Get(before, k).0
      modifies this`kinds, this`values
      ensures Valid() && kinds == old(kinds) + [k] && values == old(values) + [Get(before, k).1]
    {
      GetOneMore(Open(data), kinds, k);
      kinds, values := kinds + [k], values + [Get(before, k).1];
    }

    method TakeBytes(size: nat, n: nat) returns (bytes: Buffer)
      requires View().Valid() && IsSize(size)
      modifies this`at, this`ok
      ensures (View(), bytes) == TakeRun(old(View()), size, n)
    {
      if !ok {
        return [];
      }
      var aligned := Aligned(at, size);
      if aligned + n > |data| {
        ok := false;
        return [];
      }
      assert TakeRun(View(), size, n).0.ok;
      bytes := data[aligned..aligned + n];
      at := aligned + n;
    }

    method TakeOne(size: nat) returns (v: nat)
      requires View().Valid() && IsSize(size)
      modifies this`at, this`ok
      ensures (View(), v) == TakeNumber(old(View()), size)
    {
      var bytes := TakeBytes(size, size);
      v := if ok then Number(bytes) else 0;
    }

    /** Copies into the caller's array; a failed read leaves it alone. */
    method TakeMany(out: array<nat>, size: nat)
      requires View().Valid() && IsSize(size)
      modifies this`at, this`ok, out
      ensures var (next, values) := TakeArray(old(View()), size, out.Length);
              View() == next && out[..] == (if next.ok || out.Length == 0 then values else old(out[..]))
    {
      if out.Length == 0 {
        return;
      }
      var bytes := TakeBytes(size, size * out.Length);
      if !ok {
        return;
      }
      var values := Numbers(size, out.Length, bytes);
      var i := 0;
      while i < out.Length
        invariant i <= out.Length && out[..i] == values[..i] && View() == TakeArray(old(View()), size, out.Length).0
      {
        out[i] := values[i];
        i := i + 1;
      }
    }

    /** A count that must be the array's, then the array. */
    method TakeCounted(out: array<nat>, size: nat) returns (same: bool)
      requires View().Valid() && IsSize(size)
      modifies this`at, this`ok, out
      ensures var (next, values) := TakeSeq(old(View()), size, out.Length);
              View() == next && same == next.ok && out[..] == (if next.ok then values else old(out[..]))
    {
      var n := TakeOne(4);
      if n != out.Length { ok := false; }
      if !ok {
        return false;
      }
      TakeMany(out, size);
      return ok;
    }

    method ReadU8() returns (v: byte)
      requires Valid()
      modifies this
      ensures Valid() && kinds == old(kinds) + [KU8] && values == old(values) + [U8(v)]
      ensures (ok ==> old(ok)) && (!ok ==> v == 0)
    {
      ghost var before := View();
      var n := TakeOne(1);
      Note(before, KU8);
      v := n;
    }

    method ReadBool() returns (v: bool)
      requires Valid()
      modifies this
      ensures Valid() && kinds == old(kinds) + [KBool] && values == old(values) + [Bool(v)]
      ensures (ok ==> old(ok)) && (!ok ==> v == false)
    {
      ghost var before := View();
      var n := TakeOne(1);
      Note(before, KBool);
      v := n != 0;
    }

    method ReadI32() returns (v: i32)
      requires Valid()
      modifies this
      ensures Valid() && kinds == old(kinds) + [KI32] && values == old(values) + [I32(v)]
      ensures (ok ==> old(ok)) && (!ok ==> v == 0)
    {
      ghost var before := View();
      var n := TakeOne(4);
      Note(before, KI32);
      v := Signed32(n);
    }

    method ReadU32() returns (v: u32)
      requires Valid()
      modifies this
      ensures Valid() && kinds == old(kinds) + [KU32] && values == old(values) + [U32(v)]
      ensures (ok ==> old(ok)) && (!ok ==> v == 0)
    {
      ghost var before := View();
      var n := TakeOne(4);
      Note(before, KU32);
      v := n;
    }

    method ReadI64() returns (v: i64)
      requires Valid()
      modifies this
      ensures Valid() && kinds == old(kinds) + [KI64] && values == old(values) + [I64(v)]
      ensures (ok ==> old(ok)) && (!ok ==> v == 0)
    {
      ghost var before := View();
      var n := TakeOne(8);
      Note(before, KI64);
      v := Signed64(n);
    }

    method ReadU64() returns (v: u64)
      requires Valid()
      modifies this
      ensures Valid() && kinds == old(kinds) + [KU64] && values == old(values) + [U64(v)]
      ensures (ok ==> old(ok)) && (!ok ==> v == 0)
    {
      ghost var before := View();
      var n := TakeOne(8);
      Note(before, KU64);
      v := n;
    }

    method ReadF32() returns (v: u32)
      requires Valid()
      modifies this
      ensures Valid() && kinds == old(kinds) + [KF32] && values == old(values) + [F32(v)]
      ensures (ok ==> old(ok)) && (!ok ==> v == 0)
    {
      ghost var before := View();
      var n := TakeOne(4);
      Note(before, KF32);
      v := n;
    }

    method ReadF64() returns (v: u64)
      requires Valid()
      modifies this
      ensures Valid() && kinds == old(kinds) + [KF64] && values == old(values) + [F64(v)]
      ensures (ok ==> old(ok)) && (!ok ==> v == 0)
    {
      ghost var before := View();
      var n := TakeOne(8);
      Note(before, KF64);
      v := n;
    }

    method ReadF64Array(out: array<nat>)
      requires Valid()
      modifies this, out
      ensures Valid() && kinds == old(kinds) + [KF64Array(out.Length)]
      ensures ok ==> old(ok) && values == old(values) + [F64Array(out[..])]
      ensures !ok ==> out[..] == old(out[..])
    {
      ghost var before := View();
      TakeMany(out, 8);
      Note(before, KF64Array(out.Length));
    }

    method ReadF64Seq(out: array<nat>) returns (same: bool)
      requires Valid()
      modifies this, out
      ensures Valid() && same == ok && kinds == old(kinds) + [KF64Seq(out.Length)]
      ensures ok ==> old(ok) && values == old(values) + [F64Seq(out[..])]
      ensures !ok ==> out[..] == old(out[..])
    {
      ghost var before := View();
      same := TakeCounted(out, 8);
      Note(before, KF64Seq(out.Length));
    }

    method ReadF32Array(out: array<nat>)
      requires Valid()
      modifies this, out
      ensures Valid() && kinds == old(kinds) + [KF32Array(out.Length)]
      ensures ok ==> old(ok) && values == old(values) + [F32Array(out[..])]
      ensures !ok ==> out[..] == old(out[..])
    {
      ghost var before := View();
      TakeMany(out, 4);
      Note(before, KF32Array(out.Length));
    }

    method ReadF32Seq(out: array<nat>) returns (same: bool)
      requires Valid()
      modifies this, out
      ensures Valid() && same == ok && kinds == old(kinds) + [KF32Seq(out.Length)]
      ensures ok ==> old(ok) && values == old(values) + [F32Seq(out[..])]
      ensures !ok ==> out[..] == old(out[..])
    {
      ghost var before := View();
      same := TakeCounted(out, 4);
      Note(before, KF32Seq(out.Length));
    }

    method ReadStr() returns (s: Buffer)
      requires Valid()
      modifies this
      ensures Valid() && kinds == old(kinds) + [KStr] && values == old(values) + [Str(s)]
      ensures (ok ==> old(ok)) && (!ok ==> s == [])
    {
      hide GetAll;
      ghost var before := View();
      var len := TakeOne(4);
      if !ok || len == 0 || at + len > |data| {
        ok := false;
        s := [];
      } else {
        s := data[at..at + len - 1];
        at := at + len;
      }
      Note(before, KStr);
    }

    method ReadOctets() returns (s: Buffer)
      requires Valid()
      modifies this
      ensures Valid() && kinds == old(kinds) + [KOctets] && values == old(values) + [Octets(s)]
      ensures (ok ==> old(ok)) && (!ok ==> s == [])
    {
      hide GetAll;
      ghost var before := View();
      var n := TakeOne(4);
      if !ok || at + n > |data| {
        ok := false;
        s := [];
      } else {
        s := data[at..at + n];
        at := at + n;
      }
      Note(before, KOctets);
    }
  }
}
