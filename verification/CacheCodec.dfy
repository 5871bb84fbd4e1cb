/**
 The binary codec of the function response cache: CacheMarshaller appends the host's in-memory
 image of every value to a stream, CacheUnMarshaller reads the images back and throws on a short
 read.  The host is little-endian; `size_t` is eight bytes, `int` and `unsigned int` are four.
 */
module CacheCodec {
  import opened Basics

  newtype uint8 = x: int | 0 <= x < 256
  type bytes = seq<uint8>

  const TWO31: nat := 0x8000_0000
  const TWO64: nat := 0x1_0000_0000_0000_0000

  // ---------------------------------------------------------------- machine words

  function Pow256(n: nat): (r: nat)
    ensures r > 0
  {
    if n == 0 then 1 else 256 * Pow256(n - 1)
  }

  /** The little-endian image of `v` on `width` bytes; high-order bytes that do not fit are lost. */
  function Word(v: nat, width: nat): (b: bytes)
    ensures |b| == width
  {
    if width == 0 then [] else [(v % 256) as uint8] + Word(v / 256, width - 1)
  }

  function FromWord(b: bytes): (v: nat)
    ensures v < Pow256(|b|)
  {
    if b == [] then 0 else b[0] as nat + 256 * FromWord(b[1..])
  }

  lemma {:induction false} WordRoundTrip(v: nat, width: nat)
    requires v < Pow256(width)
    ensures FromWord(Word(v, width)) == v
  {
    if width > 0 {
      WordRoundTrip(v / 256, width - 1);
      assert Word(v, width)[1..] == Word(v / 256, width - 1);
    }
  }

  lemma Pow256Values()
    ensures Pow256(1) == 0x100 && Pow256(2) == 0x1_0000 && Pow256(4) == TWO32 && Pow256(8) == TWO64
  {
    assert Pow256(3) == 0x100_0000;
    assert Pow256(5) == 0x100_0000_0000;
    assert Pow256(6) == 0x1_0000_0000_0000;
    assert Pow256(7) == 0x100_0000_0000_0000;
  }

  // ---------------------------------------------------------------- types and values

  /** The DAP2 scalar types; a float is carried as its bit pattern. */
  datatype ScalarType = Byte | Int16 | Int32 | UInt16 | UInt32 | Float32 | Float64 {
    function Width(): (w: nat)
      ensures 1 <= w <= 8
    {
      match this
      case Byte => 1
      case Int16 => 2
      case UInt16 => 2
      case Int32 => 4
      case UInt32 => 4
      case Float32 => 4
      case Float64 => 8
    }

    predicate Signed() { Int16? || Int32? }

    function Modulus(): nat {
      match this
      case Byte => 0x100
      case Int16 => 0x1_0000
      case UInt16 => 0x1_0000
      case Int32 => TWO32
      case UInt32 => TWO32
      case Float32 => TWO32
      case Float64 => TWO64
    }

    predicate InRange(n: int) {
      if Signed() then -(Modulus() / 2) <= n < Modulus() / 2 else 0 <= n < Modulus()
    }
  }

  /** `Text` is Str and Url; `Opaque` is the fixed-length raw data of row markers. */
  datatype Type = Scalar(s: ScalarType) | Text | Opaque(len: nat) | Vector(elem: ScalarType)

  /** `Elements` is the memory block that a Vector hands over, with its element count. */
  datatype Value = Num(n: int) | Str(s: bytes) | Raw(b: bytes) | Elements(num: nat, mem: bytes)

  predicate Conforms(t: Type, v: Value) {
    match t
    case Scalar(s) => v.Num? && s.InRange(v.n)
    case Text => v.Str? && |v.s| < TWO64
    case Opaque(len) => v.Raw? && |v.b| == len
    case Vector(e) => v.Elements? && v.num < TWO31 && |v.mem| == v.num * e.Width()
  }

  predicate ConformsAll(ts: seq<Type>, vs: seq<Value>) {
    && |ts| == |vs|
    && forall i :: 0 <= i < |ts| ==> Conforms(ts[i], vs[i])
  }

  /** `num * width` is computed on 32-bit unsigned integers by both sides. */
  function ByteCount(num: nat, width: nat): (k: nat)
    ensures k <= num * width && k < TWO32
    ensures k == num * width <==> num * width < TWO32
  {
    num * width % TWO32
  }

  /** What a caller can check before writing: the vector's byte count does not wrap. */
  predicate Fits(t: Type, v: Value) {
    t.Vector? && v.Elements? ==> v.num * t.elem.Width() < TWO32
  }

  predicate FitsAll(ts: seq<Type>, vs: seq<Value>)
    requires |ts| == |vs|
  {
    forall i :: 0 <= i < |ts| ==> Fits(ts[i], vs[i])
  }

  // ---------------------------------------------------------------- encoding

  function Encode(t: Type, v: Value): bytes
    requires Conforms(t, v)
  {
    match t
    case Scalar(s) => Word(v.n % s.Modulus(), s.Width())
    case Text => Word(|v.s|, 8) + v.s
    case Opaque(_) => v.b
    case Vector(e) => Word(v.num, 4) + v.mem[..ByteCount(v.num, e.Width())]
  }

  function EncodeAll(ts: seq<Type>, vs: seq<Value>): bytes
    requires ConformsAll(ts, vs)
  {
    if ts == [] then [] else Encode(ts[0], vs[0]) + EncodeAll(ts[1..], vs[1..])
  }

  lemma EncodeAllFrom(ts: seq<Type>, vs: seq<Value>, i: nat, out: bytes)
    requires ConformsAll(ts, vs) && i < |ts|
    ensures ConformsAll(ts[i..], vs[i..]) && ConformsAll(ts[i + 1..], vs[i + 1..])
    ensures out + EncodeAll(ts[i..], vs[i..]) == out + Encode(ts[i], vs[i]) + EncodeAll(ts[i + 1..], vs[i + 1..])
  {
    assert ts[i..][1..] == ts[i + 1..] && vs[i..][1..] == vs[i + 1..];
    var first, more := Encode(ts[i], vs[i]), EncodeAll(ts[i + 1..], vs[i + 1..]);
    assert out + (first + more) == out + first + more;
  }

  // ---------------------------------------------------------------- decoding

  datatype Read<+T> = Ok(value: T, rest: bytes) | Short

  function Take(b: bytes, n: nat): Read<bytes> {
    if n <= |b| then Ok(b[..n], b[n..]) else Short
  }

  function Signed(s: ScalarType, raw: nat): int {
    if s.Signed() && raw >= s.Modulus() / 2 then raw - s.Modulus() else raw
  }

  function Decode(t: Type, b: bytes): Read<Value> {
    match t
    case Scalar(s) =>
      (match Take(b, s.Width())
       case Short => Short
       case Ok(w, rest) => Ok(Num(Signed(s, FromWord(w))), rest))
    case Text =>
      (match Take(b, 8)
       case Short => Short
       case Ok(w, rest) =>
         match Take(rest, FromWord(w))
         case Short => Short
         case Ok(text, rest') => Ok(Str(text), rest'))
    case Opaque(len) =>
      (match Take(b, len)
       case Short => Short
       case Ok(raw, rest) => Ok(Raw(raw), rest))
    case Vector(e) =>
      (match Take(b, 4)
       case Short => Short
       case Ok(w, rest) =>
         match Take(rest, ByteCount(FromWord(w), e.Width()))
         case Short => Short
         case Ok(mem, rest') => Ok(Elements(FromWord(w), mem), rest'))
  }

  function DecodeAll(ts: seq<Type>, b: bytes): Read<seq<Value>> {
    if ts == [] then Ok([], b)
    else
      match Decode(ts[0], b)
      case Short => Short
      case Ok(v, rest) =>
        match DecodeAll(ts[1..], rest)
        case Short => Short
        case Ok(vs, rest') => Ok([v] + vs, rest')
  }

  // ---------------------------------------------------------------- round trip

  /** What comes back for `v`: a vector whose byte count wraps loses the tail of its memory block. */
  function Stored(t: Type, v: Value): Value
    requires Conforms(t, v)
  {
    if t.Vector? then Elements(v.num, v.mem[..ByteCount(v.num, t.elem.Width())]) else v
  }

  function StoredAll(ts: seq<Type>, vs: seq<Value>): (r: seq<Value>)
    requires ConformsAll(ts, vs)
    ensures |r| == |vs|
  {
    seq(|vs|, i requires 0 <= i < |vs| => Stored(ts[i], vs[i]))
  }

  /** A block of `n` bytes in front of `rest` is taken back whole. */
  lemma TakeBack(block: bytes, rest: bytes)
    ensures Take(block + rest, |block|) == Ok(block, rest)
  {
    assert (block + rest)[..|block|] == block && (block + rest)[|block|..] == rest;
  }

  /** Two's complement: the stored residue, read back signed, is the number itself. */
  lemma ScalarRoundTrip(s: ScalarType, n: int)
    requires s.InRange(n)
    ensures Signed(s, FromWord(Word(n % s.Modulus(), s.Width()))) == n
  {
    Pow256Values();
    var m := s.Modulus();
    assert n % m == if n < 0 then n + m else n by {
      match s { case Byte => case Int16 => case Int32 => case UInt16 => case UInt32 => case Float32 => case Float64 => }
    }
    WordRoundTrip(n % m, s.Width());
  }

  lemma DecodeUndoesEncode(t: Type, v: Value, rest: bytes)
    requires Conforms(t, v)
    ensures Decode(t, Encode(t, v) + rest) == Ok(Stored(t, v), rest)
  {
    match t {
      case Scalar(s) =>
        TakeBack(Word(v.n % s.Modulus(), s.Width()), rest);
        ScalarRoundTrip(s, v.n);
      case Text =>
        TextRoundTrip(v.s, rest);
      case Opaque(len) =>
        TakeBack(v.b, rest);
      case Vector(e) =>
        VectorRoundTrip(e, v.num, v.mem, rest);
    }
  }

  lemma TextRoundTrip(s: bytes, rest: bytes)
    requires |s| < TWO64
    ensures Decode(Text, Encode(Text, Str(s)) + rest) == Ok(Str(s), rest)
  {
    assert Encode(Text, Str(s)) + rest == Word(|s|, 8) + (s + rest);
    TakeBack(Word(|s|, 8), s + rest);
    TakeBack(s, rest);
    Pow256Values();
    WordRoundTrip(|s|, 8);
  }

  lemma VectorRoundTrip(e: ScalarType, num: nat, mem: bytes, rest: bytes)
    requires Conforms(Vector(e), Elements(num, mem))
    ensures Decode(Vector(e), Encode(Vector(e), Elements(num, mem)) + rest)
         == Ok(Stored(Vector(e), Elements(num, mem)), rest)
  {
    var sent := mem[..ByteCount(num, e.Width())];
    assert Encode(Vector(e), Elements(num, mem)) + rest == Word(num, 4) + (sent + rest);
    TakeBack(Word(num, 4), sent + rest);
    TakeBack(sent, rest);
    Pow256Values();
    WordRoundTrip(num, 4);
  }

  /** Decoding undoes encoding for every schema, and leaves the bytes that follow untouched. */
  lemma {:induction false} RoundTrip(ts: seq<Type>, vs: seq<Value>, rest: bytes)
    requires ConformsAll(ts, vs)
    ensures DecodeAll(ts, EncodeAll(ts, vs) + rest) == Ok(StoredAll(ts, vs), rest)
  {
    hide Encode, Decode, Stored;
    if ts != [] {
      var tail := EncodeAll(ts[1..], vs[1..]) + rest;
      assert EncodeAll(ts, vs) + rest == Encode(ts[0], vs[0]) + tail;
      DecodeUndoesEncode(ts[0], vs[0], tail);
      RoundTrip(ts[1..], vs[1..], rest);
      assert [Stored(ts[0], vs[0])] + StoredAll(ts[1..], vs[1..]) == StoredAll(ts, vs);
    }
  }

  /** The values come back as they were exactly when no vector's 32-bit byte count wraps. */
  lemma RoundTripExact(ts: seq<Type>, vs: seq<Value>, rest: bytes)
    requires ConformsAll(ts, vs)
    ensures DecodeAll(ts, EncodeAll(ts, vs) + rest) == Ok(vs, rest) <==> FitsAll(ts, vs)
  {
    RoundTrip(ts, vs, rest);
    if FitsAll(ts, vs) {
      forall i | 0 <= i < |ts| ensures StoredAll(ts, vs)[i] == vs[i] {
        StoredExact(ts[i], vs[i]);
      }
      assert StoredAll(ts, vs) == vs;
    } else {
      var i :| 0 <= i < |ts| && !Fits(ts[i], vs[i]);
      StoredExact(ts[i], vs[i]);
      assert StoredAll(ts, vs)[i] != vs[i];
    }
  }

  lemma StoredExact(t: Type, v: Value)
    requires Conforms(t, v)
    ensures Stored(t, v) == v <==> Fits(t, v)
  {
    if t.Vector? {
      var k := ByteCount(v.num, t.elem.Width());
      assert |v.mem[..k]| == k;
      if k == |v.mem| { assert v.mem[..k] == v.mem; }
    }
  }

  // ---------------------------------------------------------------- prefixes

  lemma TakeExtends(b: bytes, n: nat, more: bytes)
    requires n <= |b|
    ensures Take(b + more, n) == Ok(b[..n], b[n..] + more)
  {
    assert (b + more)[..n] == b[..n] && (b + more)[n..] == b[n..] + more;
  }

  /** A decoder that succeeds has looked at nothing beyond what it consumed. */
  lemma DecodeExtends(t: Type, b: bytes, more: bytes)
    requires Decode(t, b).Ok?
    ensures Decode(t, b + more) == Ok(Decode(t, b).value, Decode(t, b).rest + more)
  {
    match t {
      case Scalar(s) => TakeExtends(b, s.Width(), more);
      case Text =>
        TakeExtends(b, 8, more);
        TakeExtends(b[8..], FromWord(b[..8]), more);
      case Opaque(len) => TakeExtends(b, len, more);
      case Vector(e) =>
        TakeExtends(b, 4, more);
        TakeExtends(b[4..], ByteCount(FromWord(b[..4]), e.Width()), more);
    }
  }

  lemma {:induction false} DecodeAllExtends(ts: seq<Type>, b: bytes, more: bytes)
    requires DecodeAll(ts, b).Ok?
    ensures DecodeAll(ts, b + more) == Ok(DecodeAll(ts, b).value, DecodeAll(ts, b).rest + more)
  {
    if ts != [] {
      DecodeExtends(ts[0], b, more);
      DecodeAllExtends(ts[1..], Decode(ts[0], b).rest, more);
    }
  }

  /** A strict prefix of an encoded dataset never decodes: the short read throws. */
  lemma StrictPrefixFails(ts: seq<Type>, vs: seq<Value>, p: bytes)
    requires ConformsAll(ts, vs)
    requires p < EncodeAll(ts, vs)
    ensures DecodeAll(ts, p) == Short
  {
    var whole := EncodeAll(ts, vs);
    var more := whole[|p|..];
    assert p + more == whole + [];
    RoundTrip(ts, vs, []);
    if DecodeAll(ts, p).Ok? {
      DecodeAllExtends(ts, p, more);
    }
  }

  /** So a prefix that does decode gives the values that were written. */
  lemma DecodesAsWritten(ts: seq<Type>, vs: seq<Value>, p: bytes)
    requires ConformsAll(ts, vs) && FitsAll(ts, vs)
    requires p <= EncodeAll(ts, vs)
    ensures DecodeAll(ts, p).Ok? ==> DecodeAll(ts, p).value == vs
  {
    var whole := EncodeAll(ts, vs);
    if |p| < |whole| {
      StrictPrefixFails(ts, vs, p);
    } else {
      assert p == whole + [];
      RoundTripExact(ts, vs, []);
    }
  }

  // ---------------------------------------------------------------- chunked vectors

  /** One put_vector_part call: `num` elements taken from the block `mem`. */
  datatype Part = Part(num: nat, mem: bytes)

  predicate PartOk(p: Part, width: nat) {
    && |p.mem| == p.num * width
    && |p.mem| < TWO32
  }

  predicate PartsOk(ps: seq<Part>, width: nat) {
    forall i :: 0 <= i < |ps| ==> PartOk(ps[i], width)
  }

  function PartsImage(ps: seq<Part>, width: nat): bytes
    requires PartsOk(ps, width)
  {
    if ps == [] then []
    else PartsImage(ps[..|ps| - 1], width) + ps[|ps| - 1].mem[..ByteCount(ps[|ps| - 1].num, width)]
  }

  function Joined(ps: seq<Part>): bytes {
    if ps == [] then [] else Joined(ps[..|ps| - 1]) + ps[|ps| - 1].mem
  }

  function Total(ps: seq<Part>): nat {
    if ps == [] then 0 else Total(ps[..|ps| - 1]) + ps[|ps| - 1].num
  }

  lemma {:induction false} PartsAddUp(ps: seq<Part>, width: nat)
    requires PartsOk(ps, width)
    ensures PartsImage(ps, width) == Joined(ps)
    ensures |Joined(ps)| == Total(ps) * width
  {
    if ps != [] {
      var last := ps[|ps| - 1];
      assert PartOk(last, width);
      PartsAddUp(ps[..|ps| - 1], width);
      assert last.mem[..|last.mem|] == last.mem;
    }
  }

  /** Writing a vector in parts gives the bytes of writing it whole exactly when the whole fits. */
  lemma ChunkedEqualsWhole(ps: seq<Part>, e: ScalarType)
    requires PartsOk(ps, e.Width())
    requires Total(ps) < TWO31
    ensures Conforms(Vector(e), Elements(Total(ps), Joined(ps)))
    ensures Word(Total(ps), 4) + PartsImage(ps, e.Width()) == Encode(Vector(e), Elements(Total(ps), Joined(ps)))
            <==> Total(ps) * e.Width() < TWO32
  {
    PartsAddUp(ps, e.Width());
    var k := ByteCount(Total(ps), e.Width());
    var whole := Encode(Vector(e), Elements(Total(ps), Joined(ps)));
    assert |whole| == 4 + k;
    if k == |Joined(ps)| { assert Joined(ps)[..k] == Joined(ps); }
  }

  // ---------------------------------------------------------------- the stream classes

  class CacheMarshaller {
    var out: bytes

    constructor ()
      ensures out == []
    {
      out := [];
    }

    /** put_byte, put_int16, put_int32, put_uint16, put_uint32, put_float32 and put_float64. */
    method PutScalar(s: ScalarType, n: int)
      requires s.InRange(n)
      modifies this
      ensures out == old(out) + Encode(Scalar(s), Num(n))
    {
      out := out + Word(n % s.Modulus(), s.Width());
    }

    method PutInt(n: nat)
      requires n < TWO31
      modifies this
      ensures out == old(out) + Word(n, 4)
    {
      out := out + Word(n, 4);
    }

    method PutStr(s: bytes)
      requires |s| < TWO64
      modifies this
      ensures out == old(out) + Encode(Text, Str(s))
    {
      out := out + Word(|s|, 8);
      out := out + s;
    }

    method PutOpaque(b: bytes)
      modifies this
      ensures out == old(out) + Encode(Opaque(|b|), Raw(b))
    {
      out := out + b;
    }

    method PutVector(mem: bytes, num: nat, e: ScalarType)
      requires num < TWO31 && |mem| == num * e.Width()
      modifies this
      ensures out == old(out) + Encode(Vector(e), Elements(num, mem))
    {
      PutInt(num);
      if num == 0 {
        assert mem[..ByteCount(num, e.Width())] == [];
        return;
      }
      ghost var sent := mem[..ByteCount(num, e.Width())];
      assert old(out) + (Word(num, 4) + sent) == old(out) + Word(num, 4) + sent;
      out := out + mem[..ByteCount(num, e.Width())];
    }

    method PutVectorPart(mem: bytes, num: nat, width: nat)
      requires |mem| == num * width
      modifies this
      ensures out == old(out) + mem[..ByteCount(num, width)]
    {
      out := out + mem[..ByteCount(num, width)];
    }

    /** put_vector_start, one put_vector_part per part, put_vector_end. */
    method PutVectorInParts(ps: seq<Part>, width: nat)
      requires PartsOk(ps, width) && Total(ps) < TWO31
      modifies this
      ensures out == old(out) + Word(Total(ps), 4) + PartsImage(ps, width)
    {
      PutInt(Total(ps));
      var i := 0;
      while i < |ps|
        invariant 0 <= i <= |ps|
        invariant out == old(out) + Word(Total(ps), 4) + PartsImage(ps[..i], width)
      {
        assert ps[..i + 1][..i] == ps[..i];
        PutVectorPart(ps[i].mem, ps[i].num, width);
        i := i + 1;
      }
      assert ps[..i] == ps;
    }

    method Put(t: Type, v: Value)
      requires Conforms(t, v)
      modifies this
      ensures out == old(out) + Encode(t, v)
    {
      match t {
        case Scalar(s) => PutScalar(s, v.n);
        case Text => PutStr(v.s);
        case Opaque(_) => PutOpaque(v.b);
        case Vector(e) => PutVector(v.mem, v.num, e);
      }
    }

    /** The loop that serializes every variable of a dataset into the cache file. */
    method PutAll(ts: seq<Type>, vs: seq<Value>)
      requires ConformsAll(ts, vs)
      modifies this
      ensures out == old(out) + EncodeAll(ts, vs)
    {
      var i := 0;
      while i < |ts|
        invariant 0 <= i <= |ts|
        invariant ConformsAll(ts[i..], vs[i..])
        invariant out + EncodeAll(ts[i..], vs[i..]) == old(out) + EncodeAll(ts, vs)
      {
        EncodeAllFrom(ts, vs, i, out);
        Put(ts[i], vs[i]);
        i := i + 1;
      }
    }
  }

  /** A value, or the exception that the stream throws on a short read. */
  datatype Got<+T> = Got(value: T) | IoFailure

  class CacheUnMarshaller {
    var input: bytes   // the unread part of the stream

    constructor (b: bytes)
      ensures input == b
    {
      input := b;
    }

    method ReadBytes(n: nat) returns (r: Got<bytes>)
      modifies this
      ensures match Take(old(input), n)
              case Ok(b, rest) => r == Got(b) && input == rest
              case Short => r == IoFailure && input == []
    {
      if n <= |input| {
        r := Got(input[..n]);
        input := input[n..];
      } else {
        r := IoFailure;
        input := [];
      }
    }

    /** The get_* call (for a vector, get_int followed by get_vector) that reads one value. */
    method Get(t: Type) returns (r: Got<Value>)
      modifies this
      ensures match Decode(t, old(input))
              case Ok(v, rest) => r == Got(v) && input == rest
              case Short => r == IoFailure
    {
      match t {
        case Scalar(s) =>
          var w := ReadBytes(s.Width());
          if w.IoFailure? { return IoFailure; }
          r := Got(Num(Signed(s, FromWord(w.value))));
        case Text =>
          var w := ReadBytes(8);
          if w.IoFailure? { return IoFailure; }
          var text := ReadBytes(FromWord(w.value));
          if text.IoFailure? { return IoFailure; }
          r := Got(Str(text.value));
        case Opaque(len) =>
          var raw := ReadBytes(len);
          if raw.IoFailure? { return IoFailure; }
          r := Got(Raw(raw.value));
        case Vector(e) =>
          var w := ReadBytes(4);
          if w.IoFailure? { return IoFailure; }
          var mem := ReadBytes(ByteCount(FromWord(w.value), e.Width()));
          if mem.IoFailure? { return IoFailure; }
          r := Got(Elements(FromWord(w.value), mem.value));
      }
    }

    /** The loop that deserializes every variable of a cached dataset. */
    method GetAll(ts: seq<Type>) returns (r: Got<seq<Value>>)
      modifies this
      ensures match DecodeAll(ts, old(input))
              case Ok(vs, rest) => r == Got(vs) && input == rest
              case Short => r == IoFailure
    {
      var vs: seq<Value> := [];
      var i := 0;
      assert ts[0..] == ts;
      assert forall more: seq<Value> :: [] + more == more;
      while i < |ts|
        invariant 0 <= i <= |ts|
        invariant match DecodeAll(ts[i..], input)
                  case Ok(more, rest) => DecodeAll(ts, old(input)) == Ok(vs + more, rest)
                  case Short => DecodeAll(ts, old(input)) == Short
      {
        assert ts[i..][1..] == ts[i + 1..];
        var v := Get(ts[i]);
        if v.IoFailure? { return IoFailure; }
        assert forall more: seq<Value> :: vs + ([v.value] + more) == vs + [v.value] + more;
        vs := vs + [v.value];
        i := i + 1;
      }
      assert vs + [] == vs;
      r := Got(vs);
    }
  }
}
