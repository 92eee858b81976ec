/** Little-endian bytes: what the writers append, and the bounded reader that takes
    them back. */
module ByteCodec {
  import opened Basics

  // -------- writing --------

  function Put16(x: u16): Bytes {
    [x % 256, x / 256]
  }

  function Put32(x: u32): Bytes {
    Put16(x % 0x1_0000) + Put16(x / 0x1_0000)
  }

  function Put64(x: u64): Bytes {
    Put32(x % 0x1_0000_0000) + Put32(x / 0x1_0000_0000)
  }

  // Two's complement.
  function Bits(i: i64): u64 {
    if i < 0 then i + 0x1_0000_0000_0000_0000 else i
  }

  function FromBits(u: u64): i64 {
    if u > MAX_I64 then u - 0x1_0000_0000_0000_0000 else u
  }

  function PutI64(i: i64): Bytes {
    Put64(Bits(i))
  }

  // Writers refuse texts longer than a u16 can count.
  function PutText(s: Bytes): Bytes {
    Put16(|s| % 0x1_0000) + s
  }

  // -------- reading: a value and the bytes after it, or a truncation --------

  datatype Parsed<+T> = Fail | Done(value: T, rest: Bytes)

  function Get8(b: Bytes): Parsed<u8> {
    if |b| < 1 then Fail else Done(b[0], b[1..])
  }

  function Word16(b: Bytes, k: nat): u16
    requires k + 2 <= |b|
  {
    b[k] as int + 0x100 * (b[k + 1] as int)
  }

  function Word32(b: Bytes, k: nat): u32
    requires k + 4 <= |b|
  {
    Word16(b, k) as int + 0x1_0000 * (Word16(b, k + 2) as int)
  }

  function Word64(b: Bytes, k: nat): u64
    requires k + 8 <= |b|
  {
    Word32(b, k) as int + 0x1_0000_0000 * (Word32(b, k + 4) as int)
  }

  function Get16(b: Bytes): Parsed<u16> {
    if |b| < 2 then Fail else Done(Word16(b, 0), b[2..])
  }

  function Get32(b: Bytes): Parsed<u32> {
    if |b| < 4 then Fail else Done(Word32(b, 0), b[4..])
  }

  function Get64(b: Bytes): Parsed<u64> {
    if |b| < 8 then Fail else Done(Word64(b, 0), b[8..])
  }

  function GetI64(b: Bytes): Parsed<i64> {
    match Get64(b)
    case Fail => Fail
    case Done(u, rest) => Done(FromBits(u), rest)
  }

  function GetBytes(b: Bytes, n: nat): Parsed<Bytes> {
    if |b| < n then Fail else Done(b[..n], b[n..])
  }

  function GetText(b: Bytes): Parsed<Bytes> {
    match Get16(b)
    case Fail => Fail
    case Done(n, rest) => GetBytes(rest, n)
  }

  // -------- both directions --------

  lemma {:induction false} Codec16(x: u16, r: Bytes, b: Bytes)
    ensures Get16(Put16(x) + r) == Done(x, r)
    ensures Get16(b).Done? ==> b == Put16(Get16(b).value) + Get16(b).rest
  {
  }

  lemma {:induction false} Codec32(x: u32, r: Bytes, b: Bytes)
    ensures Get32(Put32(x) + r) == Done(x, r)
    ensures Get32(b).Done? ==> b == Put32(Get32(b).value) + Get32(b).rest
  {
    ReadWritten32(x, r);
    if |b| >= 4 {
      WriteRead32(b);
    }
  }

  lemma {:induction false} ReadWritten32(x: u32, r: Bytes)
    ensures Get32(Put32(x) + r) == Done(x, r)
  {
    var lo, hi := x % 0x1_0000, x / 0x1_0000;
    assert Put32(x) + r == [lo % 256, lo / 256, hi % 256, hi / 256] + r;
  }

  lemma {:induction false} WriteRead32(b: Bytes)
    requires |b| >= 4
    ensures b == Put32(Word32(b, 0)) + b[4..]
  {
    var y := Word32(b, 0);
    assert y % 0x1_0000 == Word16(b, 0) && y / 0x1_0000 == Word16(b, 2);
    assert b == [b[0], b[1], b[2], b[3]] + b[4..];
  }

  lemma {:induction false} Codec64(x: u64, r: Bytes, b: Bytes)
    ensures Get64(Put64(x) + r) == Done(x, r)
    ensures Get64(b).Done? ==> b == Put64(Get64(b).value) + Get64(b).rest
  {
    ReadWritten64(x, r);
    if |b| >= 8 {
      WriteRead64(b);
    }
  }

  lemma {:induction false} ReadWritten64(x: u64, r: Bytes)
    ensures Get64(Put64(x) + r) == Done(x, r)
  {
    var lo, hi := Put32(x % 0x1_0000_0000), Put32(x / 0x1_0000_0000);
    Codec32(x % 0x1_0000_0000, hi + r, []);
    Codec32(x / 0x1_0000_0000, r, []);
    Joined64(lo, hi, r);
  }

  lemma {:induction false} Joined64(lo: Bytes, hi: Bytes, r: Bytes)
    requires |lo| == |hi| == 4
    ensures (lo + hi) + r == lo + (hi + r)
    ensures Word64(lo + hi + r, 0) == Word32(lo + (hi + r), 0) + 0x1_0000_0000 * (Word32(hi + r, 0) as int)
    ensures (lo + hi + r)[8..] == r
  {
  }

  lemma {:induction false} WriteRead64(b: Bytes)
    requires |b| >= 8
    ensures b == Put64(Word64(b, 0)) + b[8..]
  {
    var lo, hi, tail := Word32(b, 0), Word32(b[4..], 0), b[8..];
    WriteRead32(b);
    WriteRead32(b[4..]);
    assert Word32(b, 4) == hi;
    hide Word32, Put32;
    assert Word64(b, 0) == lo + 0x1_0000_0000 * (hi as int);
    Join64(lo, hi);
    assert b[4..] == Put32(hi) + tail;
    assert b == Put32(lo) + (Put32(hi) + tail);
  }

  lemma {:induction false} Join64(lo: u32, hi: u32)
    ensures Put64(lo + 0x1_0000_0000 * (hi as int)) == Put32(lo) + Put32(hi)
  {
    hide Put32;
  }

  lemma {:induction false} CodecI64(x: i64, r: Bytes, b: Bytes)
    ensures GetI64(PutI64(x) + r) == Done(x, r)
    ensures GetI64(b).Done? ==> b == PutI64(GetI64(b).value) + GetI64(b).rest
  {
    Codec64(Bits(x), r, b);
  }

  lemma {:induction false} CodecText(s: Bytes, r: Bytes, b: Bytes)
    requires |s| <= MAX_U16
    ensures GetText(PutText(s) + r) == Done(s, r)
    ensures GetText(b).Done? ==>
      |GetText(b).value| <= MAX_U16 && b == PutText(GetText(b).value) + GetText(b).rest
  {
    assert PutText(s) + r == Put16(|s|) + (s + r);
    Codec16(|s|, s + r, b);
    if GetText(b).Done? {
      var rest := Get16(b).rest;
      assert rest == rest[..Get16(b).value] + rest[Get16(b).value..];
    }
  }

  // A read returns the parse of the remaining bytes and steps past it, or reports a
  // truncation.
  ghost predicate Took<T>(r: Option<T>, p: Parsed<T>, rest: Bytes) {
    && (r.Some? <==> p.Done?)
    && (r.Some? ==> r.value == p.value && rest == p.rest)
  }

  // -------- the reader object --------

  class Reader {
    const data: Bytes
    var position: nat

    ghost predicate Valid()
      reads this
    {
      position <= |data|
    }

    ghost function Rest(): Bytes
      requires Valid()
      reads this
    {
      data[position..]
    }

    constructor (data: Bytes)
      ensures Valid() && position == 0 && this.data == data && Rest() == data
    {
      this.data := data;
      position := 0;
    }

    method U8() returns (r: Option<u8>)
      requires Valid()
      modifies this
      ensures Valid() && Took(r, Get8(old(Rest())), Rest())
    {
      if 1 > |data| - position {
        return None;
      }
      r := Some(data[position]);
      position := position + 1;
    }

    method U16() returns (r: Option<u16>)
      requires Valid()
      modifies this
      ensures Valid() && Took(r, Get16(old(Rest())), Rest())
    {
      if 2 > |data| - position {
        return None;
      }
      r := Some(Word16(data, position));
      position := position + 2;
    }

    method U32() returns (r: Option<u32>)
      requires Valid()
      modifies this
      ensures Valid() && Took(r, Get32(old(Rest())), Rest())
    {
      if 4 > |data| - position {
        return None;
      }
      r := Some(Word32(data, position));
      position := position + 4;
    }

    method U64() returns (r: Option<u64>)
      requires Valid()
      modifies this
      ensures Valid() && Took(r, Get64(old(Rest())), Rest())
    {
      if 8 > |data| - position {
        return None;
      }
      r := Some(Word64(data, position));
      position := position + 8;
    }

    method I64() returns (r: Option<i64>)
      requires Valid()
      modifies this
      ensures Valid() && Took(r, GetI64(old(Rest())), Rest())
    {
      var bits := U64();
      if bits.None? {
        return None;
      }
      r := Some(FromBits(bits.value));
    }

    method TakeBytes(n: nat) returns (r: Option<Bytes>)
      requires Valid()
      modifies this
      ensures Valid() && Took(r, GetBytes(old(Rest()), n), Rest())
    {
      if n > |data| - position {
        return None;
      }
      assert data[position..][..n] == data[position..position + n];
      r := Some(data[position..position + n]);
      position := position + n;
    }

    method Text() returns (r: Option<Bytes>)
      requires Valid()
      modifies this
      ensures Valid() && Took(r, GetText(old(Rest())), Rest())
    {
      var length := U16();
      if length.None? {
        return None;
      }
      r := TakeBytes(length.value);
    }

    method Empty() returns (r: bool)
      requires Valid()
      ensures r <==> Rest() == []
    {
      r := position == |data|;
    }
  }
}
