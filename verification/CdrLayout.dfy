/** Where the bytes of a message are: every number is at the next multiple of its
    size behind the header, lowest byte first. */
module CdrLayout {
  import opened Bytes
  import opened Cdr
  import opened CdrRoundTrip
  import opened RingArithmetic

  // ------------------------------------------------------------------ numbers

  /** The `size` bytes at `at` are `v`'s, the least significant first. */
  ghost predicate Says(data: Buffer, at: nat, size: nat, v: nat) {
    at + size <= |data| && forall i: nat | i < size :: data[at + i] == v / Pow256(i) % 256
  }

  /** Byte `i` of a number has weight 256 to the `i`. */
  lemma {:induction false} LittleByte(n: nat, v: nat, i: nat)
    requires i < n
    ensures Little(n, v)[i] == v / Pow256(i) % 256
  {
    if i > 0 {
      LittleByte(n - 1, v / 256, i - 1);
      DivideTwice(v, Pow256(i - 1));
      assert v / 256 / Pow256(i - 1) == v / Pow256(i);
    }
  }

  function Quotient(x: nat, n: nat): nat
    requires n > 0
  {
    x / n
  }

  lemma DivideTwice(v: nat, b: nat)
    requires b > 0
    ensures Quotient(Quotient(v, 256), b) == Quotient(v, 256 * b)
  {
    var m, low := Divided(v, 256);
    var q, r := Divided(m, b);
    hide Quotient;
    Regrouped(v, m, low, q, r, b);
    QuotientIs(v, 256 * b, q, 256 * r + low);
  }

  lemma Divided(x: nat, n: nat) returns (q: nat, r: nat)
    requires n > 0
    ensures q == Quotient(x, n) && x == q * n + r && r < n
  {
    DivMod(x, n);
    q, r := x / n, x % n;
  }

  lemma QuotientIs(x: nat, n: nat, q: nat, r: nat)
    requires n > 0 && x == q * n + r && r < n
    ensures Quotient(x, n) == q
  {
    DivMod(x, n);
    Unique(x / n, x % n, q, r, n);
  }

  lemma Regrouped(v: nat, m: nat, low: nat, q: nat, r: nat, b: nat)
    requires v == 256 * m + low && low < 256 && m == q * b + r && r < b
    ensures v == q * (256 * b) + (256 * r + low) && 256 * r + low < 256 * b
  {
    MulAssoc(q, 256, b);
    MulAssoc(256, q, b);
  }

  lemma LittleSays(size: nat, v: nat, data: Buffer, at: nat)
    requires at + size <= |data| && data[at..at + size] == Little(size, v)
    ensures Says(data, at, size, v)
  {
    forall i: nat | i < size ensures data[at + i] == v / Pow256(i) % 256 {
      LittleByte(size, v, i);
      assert data[at..at + size][i] == data[at + i];
    }
  }

  /** The sum of the bytes, each with its weight. */
  function Weighted(bytes: Buffer): nat {
    if bytes == [] then 0
    else Weighted(bytes[..|bytes| - 1]) + bytes[|bytes| - 1] * Pow256(|bytes| - 1)
  }

  lemma {:induction false} NumberIsWeighted(bytes: Buffer)
    ensures Number(bytes) == Weighted(bytes)
    decreases |bytes|
  {
    if |bytes| == 1 {
      assert bytes[1..] == [] && bytes[..0] == [];
      assert Pow256(0) == 1;
    } else if bytes != [] {
      var n, init, rest := |bytes| - 1, bytes[..|bytes| - 1], bytes[1..];
      NumberIsWeighted(rest);
      NumberIsWeighted(init);
      NumberIsWeighted(init[1..]);
      assert init[1..] == rest[..n - 1];
      MulAssoc(256, bytes[n], Pow256(n - 1));
      MulAssoc(bytes[n], 256, Pow256(n - 1));
    }
  }

  // ------------------------------------------------------------------- fields

  /** The position a number of this size is at: the next multiple behind the header. */
  lemma AlignedIsNext(at: nat, size: nat)
    requires at >= ORIGIN && IsSize(size)
    ensures at <= Aligned(at, size) < at + size && (Aligned(at, size) - 4) % size == 0
  {
  }

  ghost predicate Blank(data: Buffer, from: nat, to: nat) {
    to <= |data| && forall i | from <= i < to :: data[i] == 0
  }

  /** A number at the next multiple of its size, behind zeros. */
  ghost predicate NumberAt(data: Buffer, at: nat, size: nat, v: nat)
    requires at >= ORIGIN && IsSize(size)
  {
    Says(data, Aligned(at, size), size, v) && Blank(data, at, Aligned(at, size))
  }

  /** Numbers one behind the other, the first at the next multiple of their size. An
      empty array is nothing at all. */
  ghost predicate NumbersAt(data: Buffer, at: nat, size: nat, values: seq<nat>)
    requires at >= ORIGIN && IsSize(size)
  {
    values != [] ==>
      && Blank(data, at, Aligned(at, size))
      && forall k: nat | k < |values| :: Says(data, Aligned(at, size) + size * k, size, values[k])
  }

  /** A count and then bytes. */
  ghost predicate BytesAt(data: Buffer, at: nat, count: nat, bytes: Buffer)
    requires at >= ORIGIN
  {
    var from := Aligned(at, 4) + 4;
    && NumberAt(data, at, 4, count % 0x1_0000_0000)
    && from + |bytes| <= |data| && data[from..from + |bytes|] == bytes
  }

  /** What field `f` is on the wire, behind the first `at` bytes of a message. */
  ghost predicate Carries(data: Buffer, at: nat, f: Field)
    requires at >= ORIGIN
  {
    match f
    case U8(v) => NumberAt(data, at, 1, v)
    case Bool(v) => NumberAt(data, at, 1, if v then 1 else 0)
    case I32(v) => NumberAt(data, at, 4, if v < 0 then 0x1_0000_0000 + v else v)
    case U32(v) => NumberAt(data, at, 4, v)
    case I64(v) => NumberAt(data, at, 8, if v < 0 then 0x1_0000_0000_0000_0000 + v else v)
    case U64(v) => NumberAt(data, at, 8, v)
    case F32(v) => NumberAt(data, at, 4, v)
    case F64(v) => NumberAt(data, at, 8, v)
    case Str(s) => BytesAt(data, at, |s| + 1, s + [0])
    case Octets(s) => BytesAt(data, at, |s|, s)
    case F32Array(xs) => NumbersAt(data, at, 4, xs)
    case F64Array(xs) => NumbersAt(data, at, 8, xs)
    case F32Seq(xs) =>
      NumberAt(data, at, 4, |xs| % 0x1_0000_0000) && NumbersAt(data, Aligned(at, 4) + 4, 4, xs)
    case F64Seq(xs) =>
      NumberAt(data, at, 4, |xs| % 0x1_0000_0000) && NumbersAt(data, Aligned(at, 4) + 4, 8, xs)
  }

  lemma RawSays(buffer: Buffer, size: nat, v: nat)
    requires |buffer| >= ORIGIN && IsSize(size)
    ensures var b := Raw(buffer, size, v); |b| == Aligned(|buffer|, size) + size && NumberAt(b, |buffer|, size, v)
  {
    PaddedIsAligned(buffer, size);
    var b, from := Raw(buffer, size, v), |Padded(buffer, size)|;
    forall i: nat | i < size ensures b[from + i] == v / Pow256(i) % 256 {
      LittleByte(size, v, i);
      assert b[from + i] == Little(size, v)[i];
    }
    hide Little, Pow256;
  }

  lemma {:induction false} AllSays(size: nat, values: seq<nat>, k: nat)
    requires k < |values|
    ensures Says(All(size, values), size * k, size, values[k])
    decreases k
  {
    var all, rest := All(size, values), All(size, values[1..]);
    assert all == Little(size, values[0]) + rest;
    MulMono(k + 1, |values|, size);
    if k == 0 {
      forall i: nat | i < size ensures all[i] == values[0] / Pow256(i) % 256 { LittleByte(size, values[0], i); }
    } else {
      AllSays(size, values[1..], k - 1);
      assert size * k == size + size * (k - 1);
      Shifted(Little(size, values[0]), rest, size * (k - 1), size, values[k]);
    }
  }

  lemma RunSays(buffer: Buffer, size: nat, values: seq<nat>)
    requires |buffer| >= ORIGIN && IsSize(size)
    ensures var b := Run(buffer, size, values);
            && |b| == (if values == [] then |buffer| else Aligned(|buffer|, size) + size * |values|)
            && NumbersAt(b, |buffer|, size, values)
  {
    if values != [] {
      PaddedIsAligned(buffer, size);
      var b, from := Run(buffer, size, values), |Padded(buffer, size)|;
      hide Aligned, Little, Says;
      forall k: nat | k < |values| ensures Says(b, from + size * k, size, values[k]) {
        AllSays(size, values, k);
        Shifted(Padded(buffer, size), All(size, values), size * k, size, values[k]);
      }
    }
  }

  lemma Shifted(front: Buffer, data: Buffer, at: nat, size: nat, v: nat)
    requires Says(data, at, size, v)
    ensures Says(front + data, |front| + at, size, v)
  {
    forall i: nat | i < size ensures (front + data)[|front| + at + i] == v / Pow256(i) % 256 {
      assert (front + data)[|front| + (at + i)] == data[at + i];
    }
  }

  /** What is appended later changes nothing. */
  lemma StaysCarried(data: Buffer, more: Buffer, at: nat, f: Field)
    requires at >= ORIGIN && Carries(data, at, f) && data <= more
    ensures Carries(more, at, f)
  {
    hide NumberAt, NumbersAt, BytesAt, Aligned;
    match f
    case U8(v) => NumberStays(data, more, at, 1, v);
    case Bool(v) => NumberStays(data, more, at, 1, if v then 1 else 0);
    case I32(v) => NumberStays(data, more, at, 4, if v < 0 then 0x1_0000_0000 + v else v);
    case U32(v) => NumberStays(data, more, at, 4, v);
    case I64(v) => NumberStays(data, more, at, 8, if v < 0 then 0x1_0000_0000_0000_0000 + v else v);
    case U64(v) => NumberStays(data, more, at, 8, v);
    case F32(v) => NumberStays(data, more, at, 4, v);
    case F64(v) => NumberStays(data, more, at, 8, v);
    case Str(s) => BytesStay(data, more, at, |s| + 1, s + [0]);
    case Octets(s) => BytesStay(data, more, at, |s|, s);
    case F32Array(xs) => NumbersStay(data, more, at, 4, xs);
    case F64Array(xs) => NumbersStay(data, more, at, 8, xs);
    case F32Seq(xs) =>
      NumberStays(data, more, at, 4, |xs| % 0x1_0000_0000);
      NumbersStay(data, more, Aligned(at, 4) + 4, 4, xs);
    case F64Seq(xs) =>
      NumberStays(data, more, at, 4, |xs| % 0x1_0000_0000);
      NumbersStay(data, more, Aligned(at, 4) + 4, 8, xs);
  }

  lemma NumberStays(data: Buffer, more: Buffer, at: nat, size: nat, v: nat)
    requires at >= ORIGIN && IsSize(size) && NumberAt(data, at, size, v) && data <= more
    ensures NumberAt(more, at, size, v)
  {
    hide Aligned, Pow256;
  }

  lemma NumbersStay(data: Buffer, more: Buffer, at: nat, size: nat, values: seq<nat>)
    requires at >= ORIGIN && IsSize(size) && NumbersAt(data, at, size, values) && data <= more
    ensures NumbersAt(more, at, size, values)
  {
    hide Aligned;
    forall k: nat | k < |values| ensures Says(more, Aligned(at, size) + size * k, size, values[k]) {
      SaysStays(data, more, Aligned(at, size) + size * k, size, values[k]);
    }
  }

  lemma SaysStays(data: Buffer, more: Buffer, at: nat, size: nat, v: nat)
    requires Says(data, at, size, v) && data <= more
    ensures Says(more, at, size, v)
  {
    hide Pow256;
  }

  lemma BytesStay(data: Buffer, more: Buffer, at: nat, count: nat, bytes: Buffer)
    requires at >= ORIGIN && BytesAt(data, at, count, bytes) && data <= more
    ensures BytesAt(more, at, count, bytes)
  {
    var from := Aligned(at, 4) + 4;
    NumberStays(data, more, at, 4, count % 0x1_0000_0000);
    hide Aligned, NumberAt;
    assert more[from..from + |bytes|] == data[from..from + |bytes|];
  }

  /** A field behind others is on the wire as it should be. */
  lemma PutCarries(buffer: Buffer, f: Field)
    requires |buffer| >= ORIGIN
    ensures Carries(Put(buffer, f), |buffer|, f)
  {
    hide NumberAt, NumbersAt, Raw, Run, Aligned;
    match f
    case U8(v) => RawSays(buffer, 1, v);
    case Bool(v) => RawSays(buffer, 1, if v then 1 else 0);
    case I32(v) => RawSays(buffer, 4, Wrap32(v));
    case U32(v) => RawSays(buffer, 4, v);
    case I64(v) => RawSays(buffer, 8, Wrap64(v));
    case U64(v) => RawSays(buffer, 8, v);
    case F32(v) => RawSays(buffer, 4, v);
    case F64(v) => RawSays(buffer, 8, v);
    case Str(s) =>
      CountCarries(buffer, |s| + 1, s + [0]);
      assert Raw(buffer, 4, Wrap32(|s| + 1)) + (s + [0]) == Put(buffer, f);
    case Octets(s) => CountCarries(buffer, |s|, s);
    case F32Array(xs) => RunSays(buffer, 4, xs);
    case F64Array(xs) => RunSays(buffer, 8, xs);
    case F32Seq(xs) => SeqCarries(buffer, 4, xs);
    case F64Seq(xs) => SeqCarries(buffer, 8, xs);
  }

  lemma CountCarries(buffer: Buffer, count: nat, bytes: Buffer)
    requires |buffer| >= ORIGIN
    ensures BytesAt(Raw(buffer, 4, Wrap32(count)) + bytes, |buffer|, count, bytes)
  {
    RawSays(buffer, 4, Wrap32(count));
    var counted := Raw(buffer, 4, Wrap32(count));
    hide Raw, Aligned, Pow256;
    NumberStays(counted, counted + bytes, |buffer|, 4, Wrap32(count));
    assert (counted + bytes)[|counted|..|counted| + |bytes|] == bytes;
  }

  lemma SeqCarries(buffer: Buffer, size: nat, xs: seq<nat>)
    requires |buffer| >= ORIGIN && IsSize(size)
    ensures var counted := Raw(buffer, 4, Wrap32(|xs|));
            var b := Run(counted, size, xs);
            && |counted| == Aligned(|buffer|, 4) + 4
            && NumberAt(b, |buffer|, 4, |xs| % 0x1_0000_0000) && NumbersAt(b, |counted|, size, xs)
  {
    RawSays(buffer, 4, Wrap32(|xs|));
    var counted := Raw(buffer, 4, Wrap32(|xs|));
    RunSays(counted, size, xs);
    var b := Run(counted, size, xs);
    assert counted <= b;
    NumberStays(counted, b, |buffer|, 4, Wrap32(|xs|));
  }

  /** The bytes of a message: the encapsulation header, and each field behind the ones
      before it, at the next multiple of its size, lowest byte first. */
  lemma MessageOnWire(fields: seq<Field>)
    ensures Message(fields)[..4] == [0, 1, 0, 0] && |Message(fields)| == StartOf(fields, |fields|)
    ensures forall k: nat | k < |fields| :: Carries(Message(fields), StartOf(fields, k), fields[k])
  {
    PutAllGrows(HEADER, fields);
    assert fields[..|fields|] == fields;
    StartsThere(fields, |fields|);
    forall k: nat | k < |fields| ensures Carries(Message(fields), StartOf(fields, k), fields[k]) {
      FieldOnWire(fields, k);
      StartsThere(fields, k);
    }
  }

  lemma FieldOnWire(fields: seq<Field>, k: nat)
    requires k < |fields|
    ensures Carries(Message(fields), |Message(fields[..k])|, fields[k])
  {
    assert fields[..k + 1] == fields[..k] + [fields[k]];
    PutOneMore(HEADER, fields[..k], fields[k]);
    PutCarries(Message(fields[..k]), fields[k]);
    MessagePrefix(fields, k + 1);
    StaysCarried(Message(fields[..k + 1]), Message(fields), |Message(fields[..k])|, fields[k]);
  }

  lemma {:induction false} MessagePrefix(fields: seq<Field>, k: nat)
    requires k <= |fields|
    ensures Message(fields[..k]) <= Message(fields)
    decreases |fields|
  {
    if k == |fields| {
      assert fields[..k] == fields;
    } else {
      var init, last := fields[..|fields| - 1], fields[|fields| - 1];
      MessagePrefix(init, k);
      assert init[..k] == fields[..k] && fields == init + [last];
      PutOneMore(HEADER, init, last);
      PutGrows(Message(init), last);
    }
  }

  /** Where a field that starts behind `at` bytes ends. */
  function EndOf(at: nat, f: Field): (end: nat)
    requires at >= ORIGIN
    ensures end >= at
  {
    match f
    case U8(_) => at + 1
    case Bool(_) => at + 1
    case I32(_) => Aligned(at, 4) + 4
    case U32(_) => Aligned(at, 4) + 4
    case I64(_) => Aligned(at, 8) + 8
    case U64(_) => Aligned(at, 8) + 8
    case F32(_) => Aligned(at, 4) + 4
    case F64(_) => Aligned(at, 8) + 8
    case Str(s) => Aligned(at, 4) + 4 + |s| + 1
    case Octets(s) => Aligned(at, 4) + 4 + |s|
    case F32Array(xs) => EndOfRun(at, 4, |xs|)
    case F64Array(xs) => EndOfRun(at, 8, |xs|)
    case F32Seq(xs) => EndOfRun(Aligned(at, 4) + 4, 4, |xs|)
    case F64Seq(xs) => EndOfRun(Aligned(at, 4) + 4, 8, |xs|)
  }

  function EndOfRun(at: nat, size: nat, count: nat): (end: nat)
    requires at >= ORIGIN && IsSize(size)
    ensures end >= at
  {
    if count == 0 then at else Aligned(at, size) + size * count
  }

  lemma PutEnds(buffer: Buffer, f: Field)
    requires |buffer| >= ORIGIN
    ensures |Put(buffer, f)| == EndOf(|buffer|, f)
  {
    hide NumberAt, NumbersAt, Raw, Run, Aligned;
    match f
    case U8(v) => RawSays(buffer, 1, v); AlignedIsNext(|buffer|, 1);
    case Bool(v) => RawSays(buffer, 1, if v then 1 else 0); AlignedIsNext(|buffer|, 1);
    case I32(v) => RawSays(buffer, 4, Wrap32(v));
    case U32(v) => RawSays(buffer, 4, v);
    case I64(v) => RawSays(buffer, 8, Wrap64(v));
    case U64(v) => RawSays(buffer, 8, v);
    case F32(v) => RawSays(buffer, 4, v);
    case F64(v) => RawSays(buffer, 8, v);
    case Str(s) => RawSays(buffer, 4, Wrap32(|s| + 1));
    case Octets(s) => RawSays(buffer, 4, Wrap32(|s|));
    case F32Array(xs) => RunSays(buffer, 4, xs);
    case F64Array(xs) => RunSays(buffer, 8, xs);
    case F32Seq(xs) => SeqCarries(buffer, 4, xs); RunSays(Raw(buffer, 4, Wrap32(|xs|)), 4, xs);
    case F64Seq(xs) => SeqCarries(buffer, 4, xs); RunSays(Raw(buffer, 4, Wrap32(|xs|)), 8, xs);
  }

  /** Where field `k` of a message starts, or the message ends. */
  function StartOf(fields: seq<Field>, k: nat): (at: nat)
    requires k <= |fields|
    ensures at >= ORIGIN
  {
    if k == 0 then 4 else EndOf(StartOf(fields, k - 1), fields[k - 1])
  }

  lemma {:induction false} StartsThere(fields: seq<Field>, k: nat)
    requires k <= |fields|
    ensures |Message(fields[..k])| == StartOf(fields, k)
  {
    if k > 0 {
      NextStart(fields, k - 1);
      hide Message, EndOf;
      StartsThere(fields, k - 1);
    }
  }

  lemma NextStart(fields: seq<Field>, k: nat)
    requires k < |fields|
    ensures |Message(fields[..k + 1])| == EndOf(|Message(fields[..k])|, fields[k])
  {
    assert fields[..k + 1] == fields[..k] + [fields[k]];
    PutOneMore(HEADER, fields[..k], fields[k]);
    hide EndOf, Put;
    PutEnds(Message(fields[..k]), fields[k]);
  }

  // ------------------------------------------------------------------ reading

  /** A number at the next multiple of its size, whatever the padding holds. */
  ghost predicate There(data: Buffer, at: nat, size: nat, v: nat)
    requires at >= ORIGIN && IsSize(size)
  {
    Says(data, Aligned(at, size), size, v)
  }

  ghost predicate Elements(data: Buffer, from: nat, size: nat, xs: seq<nat>) {
    from + size * |xs| <= |data| && forall k: nat | k < |xs| :: Says(data, from + size * k, size, xs[k])
  }

  ghost predicate AllThere(data: Buffer, at: nat, size: nat, xs: seq<nat>)
    requires at >= ORIGIN && IsSize(size)
  {
    xs != [] ==> Elements(data, Aligned(at, size), size, xs)
  }

  /** Bytes of any message that a reader may take for field `f`: padding, a string's
      last byte and a flag's value beyond zero or not do not matter. */
  ghost predicate Present(data: Buffer, at: nat, f: Field)
    requires at >= ORIGIN
  {
    var behind := Aligned(at, 4) + 4;
    match f
    case U8(v) => There(data, at, 1, v)
    case Bool(v) => exists n: nat :: n < 0x100 && There(data, at, 1, n) && (v <==> n != 0)
    case I32(v) => There(data, at, 4, if v < 0 then 0x1_0000_0000 + v else v)
    case U32(v) => There(data, at, 4, v)
    case I64(v) => There(data, at, 8, if v < 0 then 0x1_0000_0000_0000_0000 + v else v)
    case U64(v) => There(data, at, 8, v)
    case F32(v) => There(data, at, 4, v)
    case F64(v) => There(data, at, 8, v)
    case Str(s) =>
      && |s| + 1 < 0x1_0000_0000 && There(data, at, 4, |s| + 1)
      && behind + |s| + 1 <= |data| && data[behind..behind + |s|] == s
    case Octets(s) =>
      && |s| < 0x1_0000_0000 && There(data, at, 4, |s|)
      && behind + |s| <= |data| && data[behind..behind + |s|] == s
    case F32Array(xs) => AllThere(data, at, 4, xs)
    case F64Array(xs) => AllThere(data, at, 8, xs)
    case F32Seq(xs) => |xs| < 0x1_0000_0000 && There(data, at, 4, |xs|) && AllThere(data, behind, 4, xs)
    case F64Seq(xs) => |xs| < 0x1_0000_0000 && There(data, at, 4, |xs|) && AllThere(data, behind, 8, xs)
  }

  lemma {:induction false} LittleOfNumber(bytes: Buffer)
    ensures Little(|bytes|, Number(bytes)) == bytes
  {
    if bytes != [] { LittleOfNumber(bytes[1..]); }
  }

  lemma SaysNumber(data: Buffer, at: nat, size: nat)
    requires at + size <= |data|
    ensures Says(data, at, size, Number(data[at..at + size]))
  {
    LittleOfNumber(data[at..at + size]);
    LittleSays(size, Number(data[at..at + size]), data, at);
  }

  lemma SaysIs(data: Buffer, at: nat, size: nat, v: nat)
    requires Says(data, at, size, v) && v < Pow256(size)
    ensures Number(data[at..at + size]) == v
  {
    forall i: nat | i < size ensures data[at..at + size][i] == Little(size, v)[i] { LittleByte(size, v, i); }
    assert data[at..at + size] == Little(size, v);
    LittleNumber(size, v);
  }

  lemma NumberTaken(data: Buffer, at: nat, size: nat)
    requires ORIGIN <= at <= |data| && IsSize(size)
    ensures var (n, v) := TakeNumber(Reader(data, at, true), size);
            && (n.ok <==> Aligned(at, size) + size <= |data|)
            && (n.ok ==> There(data, at, size, v) && n == Reader(data, Aligned(at, size) + size, true))
  {
    if Aligned(at, size) + size <= |data| { SaysNumber(data, Aligned(at, size), size); }
  }

  lemma NumberThere(data: Buffer, at: nat, size: nat, v: nat)
    requires ORIGIN <= at <= |data| && IsSize(size) && v < Limit(size) && There(data, at, size, v)
    ensures TakeNumber(Reader(data, at, true), size) == (Reader(data, Aligned(at, size) + size, true), v)
  {
    LimitIsPower(size);
    SaysIs(data, Aligned(at, size), size, v);
  }

  lemma {:induction false} NumbersSay(data: Buffer, from: nat, size: nat, count: nat)
    requires IsSize(size) && from + size * count <= |data|
    ensures Elements(data, from, size, Numbers(size, count, data[from..from + size * count]))
    decreases count
  {
    if count > 0 {
      var bytes := data[from..from + size * count];
      assert size * count == size + size * (count - 1);
      assert bytes[size..] == data[from + size..from + size + size * (count - 1)];
      assert bytes[..size] == data[from..from + size];
      NumbersSay(data, from + size, size, count - 1);
      SaysNumber(data, from, size);
      var rest := Numbers(size, count - 1, bytes[size..]);
      assert Numbers(size, count, bytes) == [Number(bytes[..size])] + rest;
      hide Numbers, Says;
      MoreElements(data, from, size, Number(bytes[..size]), rest);
    }
  }

  lemma MoreElements(data: Buffer, from: nat, size: nat, x: nat, rest: seq<nat>)
    requires Says(data, from, size, x) && Elements(data, from + size, size, rest)
    ensures Elements(data, from, size, [x] + rest)
  {
    var xs := [x] + rest;
    hide Says;
    assert size * |xs| == size + size * |rest|;
    forall k: nat | k < |xs| ensures Says(data, from + size * k, size, xs[k]) {
      if k > 0 {
        assert size * k == size + size * (k - 1) && xs[k] == rest[k - 1];
        assert Says(data, from + size + size * (k - 1), size, rest[k - 1]);
      }
    }
  }

  lemma SameNumbers(data: Buffer, from: nat, size: nat, xs: seq<nat>, ys: seq<nat>)
    requires IsSize(size) && Within(size, xs) && Within(size, ys) && |xs| == |ys|
    requires Elements(data, from, size, xs) && Elements(data, from, size, ys)
    ensures xs == ys
  {
    LimitIsPower(size);
    forall k: nat | k < |xs| ensures xs[k] == ys[k] {
      SaysIs(data, from + size * k, size, xs[k]);
      SaysIs(data, from + size * k, size, ys[k]);
    }
  }

  lemma ArrayTaken(data: Buffer, at: nat, size: nat, count: nat)
    requires ORIGIN <= at <= |data| && IsSize(size)
    ensures var (n, xs) := TakeArray(Reader(data, at, true), size, count);
            && (n.ok <==> count == 0 || Aligned(at, size) + size * count <= |data|)
            && (n.ok ==> AllThere(data, at, size, xs) && n == Reader(data, EndOfRun(at, size, |xs|), true))
  {
    if count > 0 && Aligned(at, size) + size * count <= |data| { NumbersSay(data, Aligned(at, size), size, count); }
    hide Aligned, Numbers, Elements;
  }

  lemma ArrayThere(data: Buffer, at: nat, size: nat, xs: seq<nat>)
    requires ORIGIN <= at <= |data| && IsSize(size) && Within(size, xs) && AllThere(data, at, size, xs)
    ensures TakeArray(Reader(data, at, true), size, |xs|) == (Reader(data, EndOfRun(at, size, |xs|), true), xs)
  {
    ArrayTaken(data, at, size, |xs|);
    var ys := TakeArray(Reader(data, at, true), size, |xs|).1;
    hide TakeArray;
    if xs != [] { SameNumbers(data, Aligned(at, size), size, xs, ys); }
  }

  /** Whatever a message is, what the reader takes for a field is there, and the reader
      goes on right behind it. */
  lemma ReadsWhatIsThere(data: Buffer, at: nat, k: Kind)
    requires ORIGIN <= at <= |data|
    ensures var (n, f) := Get(Reader(data, at, true), k);
            n.ok ==> Present(data, at, f) && n == Reader(data, EndOf(at, f), true)
  {
    if k.KStr? || k.KOctets? {
      TextTaken(data, at, k);
    } else if k.KF32Array? || k.KF64Array? || k.KF32Seq? || k.KF64Seq? {
      ListTaken(data, at, k);
    } else {
      NumberFieldTaken(data, at, k);
    }
    hide Get, Present, EndOf;
  }

  lemma NumberFieldTaken(data: Buffer, at: nat, k: Kind)
    requires ORIGIN <= at <= |data| && IsNumber(k)
    ensures var (n, f) := Get(Reader(data, at, true), k);
            n.ok ==> Present(data, at, f) && n == Reader(data, EndOf(at, f), true)
  {
    NumberTaken(data, at, SizeOf(k));
    AlignedIsNext(at, 1);
    hide Aligned, TakeNumber, Says;
    if k.KBool? {
      var v := TakeNumber(Reader(data, at, true), 1).1;
      assert TakeNumber(Reader(data, at, true), 1).0.ok ==> v < 0x100 && There(data, at, 1, v);
    }
  }

  lemma TextTaken(data: Buffer, at: nat, k: Kind)
    requires ORIGIN <= at <= |data| && (k.KStr? || k.KOctets?)
    ensures var (n, f) := Get(Reader(data, at, true), k);
            n.ok ==> Present(data, at, f) && n == Reader(data, EndOf(at, f), true)
  {
    NumberTaken(data, at, 4);
    hide Aligned, TakeNumber, There;
  }

  lemma ListTaken(data: Buffer, at: nat, k: Kind)
    requires ORIGIN <= at <= |data| && (k.KF32Array? || k.KF64Array? || k.KF32Seq? || k.KF64Seq?)
    ensures var (n, f) := Get(Reader(data, at, true), k);
            n.ok ==> Present(data, at, f) && n == Reader(data, EndOf(at, f), true)
  {
    hide Aligned, TakeArray, TakeSeq, AllThere, There;
    match k
    case KF32Array(c) => ArrayTaken(data, at, 4, c);
    case KF64Array(c) => ArrayTaken(data, at, 8, c);
    case KF32Seq(c) => SeqTaken(data, at, 4, c);
    case KF64Seq(c) => SeqTaken(data, at, 8, c);
  }

  lemma SeqTaken(data: Buffer, at: nat, size: nat, count: nat)
    requires ORIGIN <= at <= |data| && IsSize(size)
    ensures var (n, xs) := TakeSeq(Reader(data, at, true), size, count);
            var behind := Aligned(at, 4) + 4;
            n.ok ==>
              && |xs| < 0x1_0000_0000 && There(data, at, 4, |xs|) && AllThere(data, behind, size, xs)
              && n == Reader(data, EndOfRun(behind, size, |xs|), true)
  {
    NumberTaken(data, at, 4);
    var (n, v) := TakeNumber(Reader(data, at, true), 4);
    if n.ok && v == count { ArrayTaken(data, n.at, size, count); }
    hide Aligned, TakeNumber, TakeArray, AllThere;
  }

  /** And a field that is there is read. */
  lemma FindsWhatIsThere(data: Buffer, at: nat, f: Field)
    requires ORIGIN <= at <= |data| && f.Typed() && Present(data, at, f)
    ensures Get(Reader(data, at, true), KindOf(f)) == (Reader(data, EndOf(at, f), true), f)
  {
    if f.I32? || f.I64? {
      SignedThere(data, at, f);
    } else if f.Str? || f.Octets? {
      TextThere(data, at, f);
    } else if f.F32Array? || f.F64Array? || f.F32Seq? || f.F64Seq? {
      ListThere(data, at, f);
    } else {
      NumberFieldThere(data, at, f);
    }
    hide Get, Present, EndOf;
  }

  lemma SignedThere(data: Buffer, at: nat, f: Field)
    requires ORIGIN <= at <= |data| && (f.I32? || f.I64?) && Present(data, at, f)
    ensures Get(Reader(data, at, true), KindOf(f)) == (Reader(data, EndOf(at, f), true), f)
  {
    hide Aligned, TakeNumber, There;
    match f
    case I32(v) => NumberThere(data, at, 4, if v < 0 then 0x1_0000_0000 + v else v);
    case I64(v) => NumberThere(data, at, 8, if v < 0 then 0x1_0000_0000_0000_0000 + v else v);
  }

  lemma NumberFieldThere(data: Buffer, at: nat, f: Field)
    requires ORIGIN <= at <= |data| && IsNumber(KindOf(f)) && !f.I32? && !f.I64? && Present(data, at, f)
    ensures Get(Reader(data, at, true), KindOf(f)) == (Reader(data, EndOf(at, f), true), f)
  {
    AlignedIsNext(at, 1);
    hide Aligned, TakeNumber, There;
    match f
    case U8(v) => NumberThere(data, at, 1, v);
    case Bool(v) =>
      var n: nat :| n < 0x100 && There(data, at, 1, n) && (v <==> n != 0);
      NumberThere(data, at, 1, n);
    case U32(v) => NumberThere(data, at, 4, v);
    case U64(v) => NumberThere(data, at, 8, v);
    case F32(v) => NumberThere(data, at, 4, v);
    case F64(v) => NumberThere(data, at, 8, v);
  }

  lemma TextThere(data: Buffer, at: nat, f: Field)
    requires ORIGIN <= at <= |data| && (f.Str? || f.Octets?) && Present(data, at, f)
    ensures Get(Reader(data, at, true), KindOf(f)) == (Reader(data, EndOf(at, f), true), f)
  {
    NumberThere(data, at, 4, if f.Str? then |f.chars| + 1 else |f.octets|);
    hide Aligned, TakeNumber, There;
  }

  lemma ListThere(data: Buffer, at: nat, f: Field)
    requires ORIGIN <= at <= |data| && f.Typed() && Present(data, at, f)
    requires f.F32Array? || f.F64Array? || f.F32Seq? || f.F64Seq?
    ensures Get(Reader(data, at, true), KindOf(f)) == (Reader(data, EndOf(at, f), true), f)
  {
    hide Aligned, TakeArray, TakeSeq, AllThere, There;
    match f
    case F32Array(xs) => ArrayThere(data, at, 4, xs);
    case F64Array(xs) => ArrayThere(data, at, 8, xs);
    case F32Seq(xs) => SeqThere(data, at, 4, xs);
    case F64Seq(xs) => SeqThere(data, at, 8, xs);
  }

  lemma SeqThere(data: Buffer, at: nat, size: nat, xs: seq<nat>)
    requires ORIGIN <= at <= |data| && IsSize(size) && Within(size, xs) && |xs| < 0x1_0000_0000
    requires There(data, at, 4, |xs|) && AllThere(data, Aligned(at, 4) + 4, size, xs)
    ensures TakeSeq(Reader(data, at, true), size, |xs|)
            == (Reader(data, EndOfRun(Aligned(at, 4) + 4, size, |xs|), true), xs)
  {
    NumberThere(data, at, 4, |xs|);
    ArrayThere(data, Aligned(at, 4) + 4, size, xs);
  }
}
