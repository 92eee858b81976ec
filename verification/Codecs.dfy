/** Printers paired with parsers, and the law that makes them inverse both ways.
    Lists, pairs and refinements keep the law. */
module Codecs {
  import opened Basics
  import opened ByteCodec

  datatype Codec<!T> = Codec(put: T -> Bytes, get: Bytes -> Parsed<T>, ok: T -> bool)

  // What is printed parses back, whatever follows; and what parses was printed.
  ghost predicate Lawful<T(!new)>(c: Codec<T>) {
    && (forall x: T, r: Bytes :: c.ok(x) ==> c.get(c.put(x) + r) == Done(x, r))
    && (forall b: Bytes :: c.get(b).Done? ==>
          c.ok(c.get(b).value) && b == c.put(c.get(b).value) + c.get(b).rest)
  }

  // -------- machine words and texts --------

  function U8C(): Codec<u8> {
    Codec((x: u8) => [x], b => Get8(b), (x: u8) => true)
  }

  function U16C(): Codec<u16> {
    Codec((x: u16) => Put16(x), b => Get16(b), (x: u16) => true)
  }

  function U32C(): Codec<u32> {
    Codec((x: u32) => Put32(x), b => Get32(b), (x: u32) => true)
  }

  function U64C(): Codec<u64> {
    Codec((x: u64) => Put64(x), b => Get64(b), (x: u64) => true)
  }

  function TextC(): Codec<Bytes> {
    Codec((s: Bytes) => PutText(s), b => GetText(b), (s: Bytes) => |s| <= MAX_U16)
  }

  // A field that an older format does not carry.
  function Absent<T(==)>(default: T): Codec<T> {
    Codec((x: T) => [], b => Done(default, b), (x: T) => x == default)
  }

  lemma {:induction false} U8Lawful()
    ensures Lawful(U8C())
  {
    forall b: Bytes | Get8(b).Done? ensures b == [Get8(b).value] + Get8(b).rest {
    }
  }

  lemma {:induction false} U16Lawful()
    ensures Lawful(U16C())
  {
    hide Put16, Get16;
    forall x: u16, r: Bytes ensures Get16(Put16(x) + r) == Done(x, r) {
      Codec16(x, r, []);
    }
    forall b: Bytes | Get16(b).Done? ensures b == Put16(Get16(b).value) + Get16(b).rest {
      Codec16(0, [], b);
    }
  }

  lemma {:induction false} U32Lawful()
    ensures Lawful(U32C())
  {
    hide Put32, Get32;
    forall x: u32, r: Bytes ensures Get32(Put32(x) + r) == Done(x, r) {
      Codec32(x, r, []);
    }
    forall b: Bytes | Get32(b).Done? ensures b == Put32(Get32(b).value) + Get32(b).rest {
      Codec32(0, [], b);
    }
  }

  lemma {:induction false} U64Lawful()
    ensures Lawful(U64C())
  {
    hide Put64, Get64;
    forall x: u64, r: Bytes ensures Get64(Put64(x) + r) == Done(x, r) {
      Codec64(x, r, []);
    }
    forall b: Bytes | Get64(b).Done? ensures b == Put64(Get64(b).value) + Get64(b).rest {
      Codec64(0, [], b);
    }
  }

  lemma {:induction false} TextLawful()
    ensures Lawful(TextC())
  {
    hide PutText, GetText;
    forall s: Bytes, r: Bytes | |s| <= MAX_U16 ensures GetText(PutText(s) + r) == Done(s, r) {
      CodecText(s, r, []);
    }
    forall b: Bytes | GetText(b).Done?
      ensures |GetText(b).value| <= MAX_U16 && b == PutText(GetText(b).value) + GetText(b).rest
    {
      CodecText([], [], b);
    }
  }

  lemma {:induction false} AbsentLawful<T(!new)>(default: T)
    ensures Lawful(Absent(default))
  {
  }

  // -------- pairs --------

  function Both<A, B>(c: Codec<A>, d: Codec<B>): Codec<(A, B)> {
    Codec((x: (A, B)) => c.put(x.0) + d.put(x.1),
          b => match c.get(b) case Fail => Fail case Done(x, rest) =>
                 match d.get(rest) case Fail => Fail case Done(y, r) => Done((x, y), r),
          (x: (A, B)) => c.ok(x.0) && d.ok(x.1))
  }

  lemma {:induction false} BothLawful<A(!new), B(!new)>(c: Codec<A>, d: Codec<B>)
    requires Lawful(c) && Lawful(d)
    ensures Lawful(Both(c, d))
  {
    var e := Both(c, d);
    forall x: (A, B), r: Bytes | e.ok(x) ensures e.get(e.put(x) + r) == Done(x, r) {
      assert e.put(x) + r == c.put(x.0) + (d.put(x.1) + r);
    }
    forall b: Bytes | e.get(b).Done? ensures e.ok(e.get(b).value) && b == e.put(e.get(b).value) + e.get(b).rest {
      var x, rest := c.get(b).value, c.get(b).rest;
      var y, r := d.get(rest).value, d.get(rest).rest;
      assert b == c.put(x) + rest && rest == d.put(y) + r;
      assert e.put((x, y)) + r == c.put(x) + (d.put(y) + r);
    }
  }

  // -------- values outside a range are refused --------

  function Only<T>(c: Codec<T>, p: T -> bool): Codec<T> {
    Codec(c.put,
          b => match c.get(b) case Fail => Fail case Done(x, rest) => if p(x) then Done(x, rest) else Fail,
          (x: T) => c.ok(x) && p(x))
  }

  lemma {:induction false} OnlyLawful<T(!new)>(c: Codec<T>, p: T -> bool)
    requires Lawful(c)
    ensures Lawful(Only(c, p))
  {
  }

  // -------- lists of known length --------

  function PutAll<T>(c: Codec<T>, xs: seq<T>): Bytes {
    if xs == [] then [] else c.put(xs[0]) + PutAll(c, xs[1..])
  }

  function GetAll<T>(c: Codec<T>, n: nat, b: Bytes): Parsed<seq<T>>
    decreases n
  {
    if n == 0 then Done([], b)
    else
      match c.get(b)
      case Fail => Fail
      case Done(x, rest) =>
        match GetAll(c, n - 1, rest)
        case Fail => Fail
        case Done(xs, r) => Done([x] + xs, r)
  }

  predicate AllOk<T>(c: Codec<T>, xs: seq<T>) {
    forall i | 0 <= i < |xs| :: c.ok(xs[i])
  }

  lemma {:induction false} AllPutGet<T(!new)>(c: Codec<T>, xs: seq<T>, r: Bytes)
    requires Lawful(c) && AllOk(c, xs)
    ensures GetAll(c, |xs|, PutAll(c, xs) + r) == Done(xs, r)
    decreases |xs|
  {
    if xs == [] {
    } else {
      var rest := PutAll(c, xs[1..]) + r;
      assert PutAll(c, xs) + r == c.put(xs[0]) + rest;
      AllPutGet(c, xs[1..], r);
      assert [xs[0]] + xs[1..] == xs;
    }
  }

  lemma {:induction false} AllGetPut<T(!new)>(c: Codec<T>, n: nat, b: Bytes)
    requires Lawful(c) && GetAll(c, n, b).Done?
    ensures var xs, r := GetAll(c, n, b).value, GetAll(c, n, b).rest;
      |xs| == n && AllOk(c, xs) && b == PutAll(c, xs) + r
    decreases n
  {
    if n == 0 {
    } else {
      var x, rest := c.get(b).value, c.get(b).rest;
      AllGetPut(c, n - 1, rest);
      var xs, r := GetAll(c, n - 1, rest).value, GetAll(c, n - 1, rest).rest;
      assert ([x] + xs)[1..] == xs;
      assert b == c.put(x) + (PutAll(c, xs) + r);
    }
  }

  function Exactly<T>(n: nat, c: Codec<T>): Codec<seq<T>> {
    Codec((xs: seq<T>) => PutAll(c, xs), b => GetAll(c, n, b), (xs: seq<T>) => |xs| == n && AllOk(c, xs))
  }

  lemma {:induction false} ExactlyLawful<T(!new)>(n: nat, c: Codec<T>)
    requires Lawful(c)
    ensures Lawful(Exactly(n, c))
  {
    var e := Exactly(n, c);
    forall xs: seq<T>, r: Bytes | e.ok(xs) ensures e.get(e.put(xs) + r) == Done(xs, r) {
      AllPutGet(c, xs, r);
    }
    forall b: Bytes | e.get(b).Done? ensures e.ok(e.get(b).value) && b == e.put(e.get(b).value) + e.get(b).rest {
      AllGetPut(c, n, b);
    }
  }

  // -------- lists behind a count --------

  function Count16(): Codec<u32> {
    Codec((n: u32) => Put16(n % 0x1_0000), b => GetCount16(b), (n: u32) => n <= MAX_U16)
  }

  function GetCount16(b: Bytes): Parsed<u32> {
    match Get16(b) case Fail => Fail case Done(n, rest) => Done(n, rest)
  }

  lemma {:induction false} Count16Lawful()
    ensures Lawful(Count16())
  {
    hide Put16, Get16;
    var e := Count16();
    forall n: u32, r: Bytes | e.ok(n) ensures e.get(e.put(n) + r) == Done(n, r) {
      assert n % 0x1_0000 == n;
      Codec16(n, r, []);
    }
    forall b: Bytes | e.get(b).Done? ensures e.ok(e.get(b).value) && b == e.put(e.get(b).value) + e.get(b).rest {
      Codec16(0, [], b);
      var n := Get16(b).value;
      assert n % 0x1_0000 == n;
    }
  }

  function Counted<T>(k: Codec<u32>, c: Codec<T>): Codec<seq<T>> {
    Codec((xs: seq<T>) => k.put(|xs| % 0x1_0000_0000) + PutAll(c, xs),
          b => match k.get(b) case Fail => Fail case Done(n, rest) => GetAll(c, n, rest),
          (xs: seq<T>) => |xs| <= MAX_U32 && k.ok(|xs|) && AllOk(c, xs))
  }

  lemma {:induction false} CountedLawful<T(!new)>(k: Codec<u32>, c: Codec<T>)
    requires Lawful(k) && Lawful(c)
    ensures Lawful(Counted(k, c))
  {
    hide PutAll, GetAll, AllOk;
    var e := Counted(k, c);
    forall xs: seq<T>, r: Bytes | e.ok(xs) ensures e.get(e.put(xs) + r) == Done(xs, r) {
      var n: u32 := |xs|;
      assert e.put(xs) + r == k.put(n) + (PutAll(c, xs) + r);
      AllPutGet(c, xs, r);
    }
    forall b: Bytes | e.get(b).Done? ensures e.ok(e.get(b).value) && b == e.put(e.get(b).value) + e.get(b).rest {
      var n, rest := k.get(b).value, k.get(b).rest;
      AllGetPut(c, n, rest);
      var xs, r := GetAll(c, n, rest).value, GetAll(c, n, rest).rest;
      assert b == k.put(n) + (PutAll(c, xs) + r);
    }
  }

  // -------- another presentation of the same values --------

  function Via<A, B>(c: Codec<A>, there: A -> B, back: B -> A): Codec<B> {
    Codec((y: B) => c.put(back(y)),
          b => match c.get(b) case Fail => Fail case Done(x, rest) => Done(there(x), rest),
          (y: B) => c.ok(back(y)))
  }

  lemma {:induction false} ViaLawful<A(!new), B(!new)>(c: Codec<A>, there: A -> B, back: B -> A)
    requires Lawful(c)
    requires forall x: A :: back(there(x)) == x
    requires forall y: B :: there(back(y)) == y
    ensures Lawful(Via(c, there, back))
  {
  }
}
