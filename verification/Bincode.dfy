/** The bincode 1.3 wire format: layouts, the values they admit, the encoding and its decoder. */
module Bincode {
  import opened Words

  type Byte = b: int | 0 <= b < 256
  type Bytes = seq<Byte>

  // --- Little-endian integers ---

  /** The low w bytes of n in two's complement, least significant first. */
  function LE(n: int, w: nat): (bs: Bytes)
    ensures |bs| == w
    decreases w
  {
    if w == 0 then [] else [n % 256] + LE(n / 256, w - 1)
  }

  function Number(bs: Bytes): nat {
    if bs == [] then 0 else bs[0] + 256 * Number(bs[1..])
  }

  lemma {:induction false} NumberOfLE(n: int, w: nat)
    ensures Number(LE(n, w)) == n % Pow256(w)
    decreases w
  {
    if w > 0 {
      var q, p := n / 256, Pow256(w - 1);
      NumberOfLE(q, w - 1);
      assert LE(n, w)[1..] == LE(q, w - 1);
      ModSplits(n, p);
    }
  }

  lemma ModSplits(n: int, p: int)
    requires p >= 1
    ensures n % (256 * p) == n % 256 + 256 * ((n / 256) % p)
  {
    var q, r := (n / 256) / p, n % 256 + 256 * ((n / 256) % p);
    assert n == 256 * (p * q + (n / 256) % p) + n % 256;
    assert n == (256 * p) * q + r by {
      assert 256 * (p * q) == (256 * p) * q;
    }
    RemainderIsUnique(n, 256 * p, q, r);
  }

  lemma SplitLowByte(b: Byte, m: int)
    ensures (b + 256 * m) % 256 == b && (b + 256 * m) / 256 == m
  {
  }

  lemma {:induction false} LEOfNumber(bs: Bytes)
    ensures Number(bs) < Pow256(|bs|)
    ensures LE(Number(bs), |bs|) == bs
  {
    if bs != [] {
      LEOfNumber(bs[1..]);
      SplitLowByte(bs[0], Number(bs[1..]));
      assert bs == [bs[0]] + bs[1..];
    }
  }

  /** Two integers have the same w bytes exactly when they agree modulo 256^w. */
  lemma SameBytesIffCongruent(a: int, b: int, w: nat)
    ensures LE(a, w) == LE(b, w) <==> a % Pow256(w) == b % Pow256(w)
  {
    NumberOfLE(a, w);
    NumberOfLE(b, w);
    LEOfNumber(LE(a, w));
    LEOfNumber(LE(b, w));
  }

  lemma NumberOfSmallLE(n: int, w: nat)
    requires 0 <= n < Pow256(w)
    ensures Number(LE(n, w)) == n
  {
    NumberOfLE(n, w);
    RemainderIsUnique(n, Pow256(w), 0, n);
  }

  // --- Layouts and values ---

  /** A serde type as bincode lays it out: enum, option and bool tags are Tagged. */
  datatype Shape =
    | Unit
    | Num(width: nat)
    | Raw(len: nat)
    | Sized(len: nat)
    | Vec
    | Many(item: Shape)
    | Pair(first: Shape, second: Shape)
    | Tagged(width: nat, variants: seq<Shape>)

  datatype Value =
    | Nothing
    | Int(n: int)
    | Blob(bytes: Bytes)
    | List(items: seq<Value>)
    | Both(first: Value, second: Value)
    | Variant(tag: int, body: Value)

  /** The values a layout can hold. */
  predicate Fits(s: Shape, v: Value)
    decreases s, 0, 0
  {
    match s
    case Unit => v == Nothing
    case Num(w) => v.Int? && 0 <= v.n < Pow256(w)
    case Raw(n) => v.Blob? && |v.bytes| == n
    case Sized(n) => v.Blob? && |v.bytes| == n < Pow256(8)
    case Vec => v.Blob? && |v.bytes| < Pow256(8)
    case Many(item) => v.List? && |v.items| < Pow256(8) && FitsAll(item, v.items)
    case Pair(a, b) => v.Both? && Fits(a, v.first) && Fits(b, v.second)
    case Tagged(w, vs) => v.Variant? && 0 <= v.tag < |vs| && v.tag < Pow256(w) && Fits(vs[v.tag], v.body)
  }

  predicate FitsAll(item: Shape, vs: seq<Value>)
    decreases item, 1, |vs|
  {
    vs == [] || (Fits(item, vs[0]) && FitsAll(item, vs[1..]))
  }

  function Encode(s: Shape, v: Value): Bytes
    requires Fits(s, v)
    decreases s, 0, 0
  {
    match s
    case Unit => []
    case Num(w) => LE(v.n, w)
    case Raw(_) => v.bytes
    case Sized(n) => LE(n, 8) + v.bytes
    case Vec => LE(|v.bytes|, 8) + v.bytes
    case Many(item) => LE(|v.items|, 8) + EncodeAll(item, v.items)
    case Pair(a, b) => Encode(a, v.first) + Encode(b, v.second)
    case Tagged(w, vs) => LE(v.tag, w) + Encode(vs[v.tag], v.body)
  }

  function EncodeAll(item: Shape, vs: seq<Value>): Bytes
    requires FitsAll(item, vs)
    decreases item, 1, |vs|
  {
    if vs == [] then [] else Encode(item, vs[0]) + EncodeAll(item, vs[1..])
  }

  // --- Decoding from the front, handing back what is left ---

  datatype Read<T> = Fail | Got(value: T, rest: Bytes)

  function TakeBytes(n: nat, bs: Bytes): Read<Bytes> {
    if n <= |bs| then Got(bs[..n], bs[n..]) else Fail
  }

  function TakeNum(w: nat, bs: Bytes): Read<nat> {
    if w <= |bs| then Got(Number(bs[..w]), bs[w..]) else Fail
  }

  function Decode(s: Shape, bs: Bytes): Read<Value>
    decreases s, 0, 0
  {
    match s
    case Unit => Got(Nothing, bs)
    case Num(w) => (match TakeNum(w, bs)
                    case Fail => Fail
                    case Got(n, rest) => Got(Int(n), rest))
    case Raw(n) => (match TakeBytes(n, bs)
                    case Fail => Fail
                    case Got(b, rest) => Got(Blob(b), rest))
    case Sized(n) => (match DecodeVec(bs)
                      case Fail => Fail
                      case Got(b, rest) => if |b| == n then Got(Blob(b), rest) else Fail)
    case Vec => (match DecodeVec(bs)
                 case Fail => Fail
                 case Got(b, rest) => Got(Blob(b), rest))
    case Many(item) => (match TakeNum(8, bs)
                        case Fail => Fail
                        case Got(n, rest) =>
                          match DecodeAll(item, n, rest)
                          case Fail => Fail
                          case Got(vs, rest') => Got(List(vs), rest'))
    case Pair(a, b) => (match Decode(a, bs)
                        case Fail => Fail
                        case Got(v, rest) =>
                          match Decode(b, rest)
                          case Fail => Fail
                          case Got(w, rest') => Got(Both(v, w), rest'))
    case Tagged(w, vs) => (match TakeNum(w, bs)
                           case Fail => Fail
                           case Got(t, rest) =>
                             if t >= |vs| then Fail
                             else match Decode(vs[t], rest)
                                  case Fail => Fail
                                  case Got(v, rest') => Got(Variant(t, v), rest'))
  }

  function DecodeVec(bs: Bytes): Read<Bytes> {
    match TakeNum(8, bs)
    case Fail => Fail
    case Got(n, rest) => TakeBytes(n, rest)
  }

  function DecodeAll(item: Shape, n: nat, bs: Bytes): Read<seq<Value>>
    decreases item, 1, n
  {
    if n == 0 then Got([], bs)
    else match Decode(item, bs)
         case Fail => Fail
         case Got(v, rest) =>
           match DecodeAll(item, n - 1, rest)
           case Fail => Fail
           case Got(vs, rest') => Got([v] + vs, rest')
  }

  // --- Decoding inverts encoding, and nothing else decodes ---

  lemma Regroup(a: Bytes, b: Bytes, c: Bytes)
    ensures (a + b) + c == a + (b + c)
  {
  }

  lemma TakeNumOfLE(n: int, w: nat, rest: Bytes)
    requires 0 <= n < Pow256(w)
    ensures TakeNum(w, LE(n, w) + rest) == Got(n, rest)
  {
    var bs := LE(n, w) + rest;
    assert bs[..w] == LE(n, w) && bs[w..] == rest;
    NumberOfSmallLE(n, w);
  }

  lemma TakeBytesOf(b: Bytes, rest: Bytes)
    ensures TakeBytes(|b|, b + rest) == Got(b, rest)
  {
    assert (b + rest)[..|b|] == b && (b + rest)[|b|..] == rest;
  }

  lemma DecodeVecOf(b: Bytes, rest: Bytes)
    requires |b| < Pow256(8)
    ensures DecodeVec((LE(|b|, 8) + b) + rest) == Got(b, rest)
  {
    hide LE, Number, Pow256;
    Regroup(LE(|b|, 8), b, rest);
    TakeNumOfLE(|b|, 8, b + rest);
    TakeBytesOf(b, rest);
  }

  /** Whatever follows, decoding an encoding gives the value back and leaves exactly what followed. */
  lemma {:induction false} RoundTrip(s: Shape, v: Value, rest: Bytes)
    requires Fits(s, v)
    ensures Decode(s, Encode(s, v) + rest) == Got(v, rest)
    decreases s, 0, 0
  {
    hide LE, Number, Pow256;
    match s
    case Unit =>
      assert Encode(s, v) + rest == rest;
    case Num(w) =>
      TakeNumOfLE(v.n, w, rest);
    case Raw(_) =>
      TakeBytesOf(v.bytes, rest);
    case Sized(_) =>
      DecodeVecOf(v.bytes, rest);
    case Vec =>
      DecodeVecOf(v.bytes, rest);
    case Many(item) =>
      var tail := EncodeAll(item, v.items);
      Regroup(LE(|v.items|, 8), tail, rest);
      TakeNumOfLE(|v.items|, 8, tail + rest);
      RoundTripAll(item, v.items, rest);
    case Pair(a, b) =>
      var tail := Encode(b, v.second);
      Regroup(Encode(a, v.first), tail, rest);
      RoundTrip(a, v.first, tail + rest);
      RoundTrip(b, v.second, rest);
    case Tagged(w, vs) =>
      var tail := Encode(vs[v.tag], v.body);
      Regroup(LE(v.tag, w), tail, rest);
      TakeNumOfLE(v.tag, w, tail + rest);
      RoundTrip(vs[v.tag], v.body, rest);
  }

  lemma {:induction false} RoundTripAll(item: Shape, vs: seq<Value>, rest: Bytes)
    requires FitsAll(item, vs)
    ensures DecodeAll(item, |vs|, EncodeAll(item, vs) + rest) == Got(vs, rest)
    decreases item, 1, |vs|
  {
    hide LE, Number, Pow256, Encode, Decode, Fits;
    if vs == [] {
      assert EncodeAll(item, vs) + rest == rest;
    } else {
      var tail := EncodeAll(item, vs[1..]);
      Regroup(Encode(item, vs[0]), tail, rest);
      RoundTrip(item, vs[0], tail + rest);
      RoundTripAll(item, vs[1..], rest);
      assert [vs[0]] + vs[1..] == vs;
    }
  }

  lemma TakeNumSound(w: nat, bs: Bytes)
    requires TakeNum(w, bs).Got?
    ensures var r := TakeNum(w, bs); r.value < Pow256(w) && bs == LE(r.value, w) + r.rest
  {
    LEOfNumber(bs[..w]);
    assert bs == bs[..w] + bs[w..];
  }

  lemma DecodeVecSound(bs: Bytes)
    requires DecodeVec(bs).Got?
    ensures var r := DecodeVec(bs); |r.value| < Pow256(8) && bs == (LE(|r.value|, 8) + r.value) + r.rest
  {
    hide LE, Number, Pow256;
    TakeNumSound(8, bs);
    var n, r := TakeNum(8, bs), DecodeVec(bs);
    assert n.rest == r.value + r.rest;
    Regroup(LE(n.value, 8), r.value, r.rest);
  }

  /** Only encodings decode: the bytes consumed are the encoding of the value produced. */
  lemma {:induction false} DecodeIsSound(s: Shape, bs: Bytes)
    requires Decode(s, bs).Got?
    ensures var r := Decode(s, bs); Fits(s, r.value) && bs == Encode(s, r.value) + r.rest
    decreases s, 0, 0
  {
    hide LE, Number, Pow256;
    var r := Decode(s, bs);
    match s
    case Unit =>
      assert bs == [] + bs;
    case Num(w) =>
      TakeNumSound(w, bs);
    case Raw(n) =>
      assert bs == bs[..n] + bs[n..];
    case Sized(_) =>
      DecodeVecSound(bs);
    case Vec =>
      DecodeVecSound(bs);
    case Many(item) =>
      TakeNumSound(8, bs);
      var n := TakeNum(8, bs);
      DecodeAllIsSound(item, n.value, n.rest);
      var tail := EncodeAll(item, r.value.items);
      Regroup(LE(n.value, 8), tail, r.rest);
    case Pair(a, b) =>
      DecodeIsSound(a, bs);
      var x := Decode(a, bs);
      DecodeIsSound(b, x.rest);
      var first, second := Encode(a, x.value), Encode(b, r.value.second);
      Regroup(first, second, r.rest);
    case Tagged(w, vs) =>
      TakeNumSound(w, bs);
      var t := TakeNum(w, bs);
      DecodeIsSound(vs[t.value], t.rest);
      var tail := Encode(vs[t.value], r.value.body);
      Regroup(LE(t.value, w), tail, r.rest);
  }

  lemma {:induction false} DecodeAllIsSound(item: Shape, n: nat, bs: Bytes)
    requires DecodeAll(item, n, bs).Got?
    ensures var r := DecodeAll(item, n, bs);
            |r.value| == n && FitsAll(item, r.value) && bs == EncodeAll(item, r.value) + r.rest
    decreases item, 1, n
  {
    hide LE, Number, Pow256;
    if n == 0 {
      assert bs == [] + bs;
    } else {
      DecodeIsSound(item, bs);
      var x, r := Decode(item, bs), DecodeAll(item, n, bs);
      DecodeAllIsSound(item, n - 1, x.rest);
      assert r.value[1..] == DecodeAll(item, n - 1, x.rest).value;
      var first, tail := Encode(item, x.value), EncodeAll(item, r.value[1..]);
      Regroup(first, tail, r.rest);
    }
  }

  /** No encoding is a prefix of another's: equal streams hold equal values and equal remainders. */
  lemma PrefixFree(s: Shape, v: Value, w: Value, rest: Bytes, rest': Bytes)
    requires Fits(s, v) && Fits(s, w)
    requires Encode(s, v) + rest == Encode(s, w) + rest'
    ensures v == w && rest == rest'
  {
    RoundTrip(s, v, rest);
    RoundTrip(s, w, rest');
  }

  /** A value is what its bytes decode to exactly when the layout admits it. */
  lemma DecodesBackIff(s: Shape, v: Value, bs: Bytes, rest: Bytes)
    requires Fits(s, v) ==> bs == Encode(s, v)
    ensures Decode(s, bs + rest) == Got(v, rest) <==> Fits(s, v)
  {
    if Fits(s, v) {
      RoundTrip(s, v, rest);
    } else if Decode(s, bs + rest) == Got(v, rest) {
      DecodeIsSound(s, bs + rest);
    }
  }
}
