/**
 UTF-8 (sections 3 and 4 of RFC 3629): encoding, strict decoding, and the fact
 everything sorted by "UTF-8 bytes" rests on: byte order is code point order.
 */
module Utf8 {
  import opened Basics

  newtype codepoint = n: int | 0 <= n < 0x110000

  /** A Python string: code points, surrogates included. */
  type Text = seq<codepoint>

  predicate IsScalar(c: codepoint) {
    c < 0xD800 || 0xDFFF < c
  }

  /** Every character is a scalar value, so the string can be encoded at all. */
  predicate Scalars(t: Text) {
    forall i :: 0 <= i < |t| ==> IsScalar(t[i])
  }

  function Tail(c: int): byte
    requires c >= 0
  {
    (0x80 + c % 64) as byte
  }

  function EncodePoint(c: codepoint): (r: Bytes)
    ensures 1 <= |r| <= 4
  {
    var n := c as int;
    if n < 0x80 then [n as byte]
    else if n < 0x800 then [(0xC0 + n / 64) as byte, Tail(n)]
    else if n < 0x10000 then [(0xE0 + n / 4096) as byte, Tail(n / 64), Tail(n)]
    else [(0xF0 + n / 262144) as byte, Tail(n / 4096), Tail(n / 64), Tail(n)]
  }

  function Encode(t: Text): Bytes {
    if t == [] then [] else EncodePoint(t[0]) + Encode(t[1..])
  }

  // ---- strict decoding -------------------------------------------------

  predicate IsTail(b: byte) {
    0x80 <= b < 0xC0
  }

  function Low(b: byte): (r: int)
    ensures 0 <= r < 64
  {
    b as int % 64
  }

  /** The first character of `b` and its length; overlong forms and surrogates are refused. */
  function DecodePoint(b: Bytes): (r: Option<(codepoint, nat)>)
    requires b != []
    ensures r.Some? ==> 1 <= r.value.1 <= |b|
  {
    var h := b[0] as int;
    if h < 0x80 then Some((h as codepoint, 1))
    else if 0xC2 <= h < 0xE0 && |b| >= 2 && IsTail(b[1]) then
      Some((((h - 0xC0) * 64 + Low(b[1])) as codepoint, 2))
    else if 0xE0 <= h < 0xF0 && |b| >= 3 && IsTail(b[1]) && IsTail(b[2]) then
      var n := (h - 0xE0) * 4096 + Low(b[1]) * 64 + Low(b[2]);
      if n >= 0x800 && IsScalar(n as codepoint) then Some((n as codepoint, 3)) else None
    else if 0xF0 <= h < 0xF5 && |b| >= 4 && IsTail(b[1]) && IsTail(b[2]) && IsTail(b[3]) then
      var n := (h - 0xF0) * 262144 + Low(b[1]) * 4096 + Low(b[2]) * 64 + Low(b[3]);
      if 0x10000 <= n < 0x110000 then Some((n as codepoint, 4)) else None
    else None
  }

  function Decode(b: Bytes): Option<Text> {
    if b == [] then Some([])
    else
      var one := DecodePoint(b);
      if one.None? then None
      else
        var rest := Decode(b[one.value.1..]);
        if rest.None? then None else Some([one.value.0] + rest.value)
  }

  /** Base-64 digits. */
  lemma Digits(h: int, l: int)
    requires 0 <= h && 0 <= l < 64
    ensures (h * 64 + l) / 64 == h && (h * 64 + l) % 64 == l
  {
  }

  lemma Regroup(n: int)
    requires 0 <= n
    ensures n / 4096 == n / 64 / 64 && n / 262144 == n / 4096 / 64
    ensures n == n / 64 * 64 + n % 64
    ensures n == n / 4096 * 4096 + n / 64 % 64 * 64 + n % 64
    ensures n == n / 262144 * 262144 + n / 4096 % 64 * 4096 + n / 64 % 64 * 64 + n % 64
  {
  }

  lemma TailLow(n: int)
    requires 0 <= n
    ensures IsTail(Tail(n)) && Low(Tail(n)) == n % 64
  {
  }

  lemma PointRoundTrip(c: codepoint, rest: Bytes)
    requires IsScalar(c)
    ensures DecodePoint(EncodePoint(c) + rest) == Some((c, |EncodePoint(c)|))
  {
    var n := c as int;
    Regroup(n);
    TailLow(n);
    TailLow(n / 64);
    TailLow(n / 4096);
    hide Low;
    hide IsTail;
    hide Tail;
  }

  lemma {:induction false} RoundTrip(t: Text)
    requires Scalars(t)
    ensures Decode(Encode(t)) == Some(t)
  {
    if t != [] {
      PointRoundTrip(t[0], Encode(t[1..]));
      RoundTrip(t[1..]);
      assert Encode(t)[|EncodePoint(t[0])|..] == Encode(t[1..]);
      assert t == [t[0]] + t[1..];
    }
  }

  lemma LowTail(n: int, b: byte)
    requires 0 <= n && IsTail(b) && n % 64 == Low(b)
    ensures Tail(n) == b
  {
  }

  lemma DecodedPointEncodes(b: Bytes)
    requires b != [] && DecodePoint(b).Some?
    ensures IsScalar(DecodePoint(b).value.0)
    ensures EncodePoint(DecodePoint(b).value.0) == b[..DecodePoint(b).value.1]
  {
    var h, k := b[0] as int, DecodePoint(b).value.1;
    hide EncodePoint;
    hide Low;
    if k == 1 {
      OneByte(h);
    } else if k == 2 {
      TwoBytes(h, b[1]);
    } else if k == 3 {
      ThreeBytes(h, b[1], b[2]);
    } else {
      FourBytes(h, b[1], b[2], b[3]);
    }
  }

  lemma OneByte(h: int)
    requires 0 <= h < 0x80
    ensures EncodePoint(h as codepoint) == [h as byte] && IsScalar(h as codepoint)
  {
  }

  lemma TwoBytes(h: int, x: byte)
    requires 0xC2 <= h < 0xE0 && IsTail(x)
    ensures var n := (h - 0xC0) * 64 + Low(x);
      0x80 <= n < 0x800 && EncodePoint(n as codepoint) == [h as byte, x] && IsScalar(n as codepoint)
  {
    var n := (h - 0xC0) * 64 + Low(x);
    Digits(h - 0xC0, Low(x));
    LowTail(n, x);
  }

  lemma ThreeBytes(h: int, x: byte, y: byte)
    requires 0xE0 <= h < 0xF0 && IsTail(x) && IsTail(y)
    requires (h - 0xE0) * 4096 + Low(x) * 64 + Low(y) >= 0x800
    ensures var n := (h - 0xE0) * 4096 + Low(x) * 64 + Low(y);
      n < 0x10000 && EncodePoint(n as codepoint) == [h as byte, x, y]
  {
    var n := (h - 0xE0) * 4096 + Low(x) * 64 + Low(y);
    Digits(h - 0xE0, Low(x));
    Digits((h - 0xE0) * 64 + Low(x), Low(y));
    Regroup(n);
    LowTail(n / 64, x);
    LowTail(n, y);
  }

  lemma FourBytes(h: int, x: byte, y: byte, z: byte)
    requires 0xF0 <= h < 0xF5 && IsTail(x) && IsTail(y) && IsTail(z)
    requires 0x10000 <= (h - 0xF0) * 262144 + Low(x) * 4096 + Low(y) * 64 + Low(z) < 0x110000
    ensures var n := (h - 0xF0) * 262144 + Low(x) * 4096 + Low(y) * 64 + Low(z);
      EncodePoint(n as codepoint) == [h as byte, x, y, z] && IsScalar(n as codepoint)
  {
    var n := (h - 0xF0) * 262144 + Low(x) * 4096 + Low(y) * 64 + Low(z);
    Digits(h - 0xF0, Low(x));
    Digits((h - 0xF0) * 64 + Low(x), Low(y));
    Digits(((h - 0xF0) * 64 + Low(x)) * 64 + Low(y), Low(z));
    Regroup(n);
    LowTail(n / 4096, x);
    LowTail(n / 64, y);
    LowTail(n, z);
  }

  /** Decoding is strict: what it accepts is exactly the encoding of what it returns. */
  lemma {:induction false} DecodeIsStrict(b: Bytes)
    requires Decode(b).Some?
    ensures Scalars(Decode(b).value) && Encode(Decode(b).value) == b
  {
    if b != [] {
      DecodedPointEncodes(b);
      DecodeIsStrict(b[DecodePoint(b).value.1..]);
    }
  }

  // ---- order -----------------------------------------------------------

  /** Lexicographic order over an order of elements: Python's on bytes, strings and tuples. */
  predicate Lex<T(==)>(less: (T, T) -> bool, a: seq<T>, b: seq<T>) {
    b != [] && (a == [] || less(a[0], b[0]) || (a[0] == b[0] && Lex(less, a[1..], b[1..])))
  }

  predicate ByteLess(x: byte, y: byte) {
    x < y
  }

  predicate PointLess(x: codepoint, y: codepoint) {
    x < y
  }

  predicate Below(a: Bytes, b: Bytes) {
    Lex(ByteLess, a, b)
  }

  predicate Before(a: Text, b: Text) {
    Lex(PointLess, a, b)
  }

  ghost predicate StrictOrder<T(!new)>(less: (T, T) -> bool) {
    && (forall x :: !less(x, x))
    && (forall x, y, z :: less(x, y) && less(y, z) ==> less(x, z))
    && (forall x, y :: x == y || less(x, y) || less(y, x))
  }

  lemma {:induction false} LexTotal<T(!new)>(less: (T, T) -> bool, a: seq<T>, b: seq<T>)
    requires StrictOrder(less)
    ensures a == b || Lex(less, a, b) || Lex(less, b, a)
    ensures !Lex(less, a, a) && !(Lex(less, a, b) && Lex(less, b, a))
  {
    if a != [] && b != [] {
      LexTotal(less, a[1..], b[1..]);
      assert a[0] == b[0] && a[1..] == b[1..] ==> a == [a[0]] + a[1..] == b;
    }
    if a != [] {
      LexTotal(less, a[1..], a[1..]);
    }
  }

  lemma {:induction false} LexTransitive<T(!new)>(less: (T, T) -> bool, a: seq<T>, b: seq<T>, c: seq<T>)
    requires StrictOrder(less) && Lex(less, a, b) && Lex(less, b, c)
    ensures Lex(less, a, c)
  {
    if a != [] && a[0] == b[0] && b[0] == c[0] {
      LexTransitive(less, a[1..], b[1..], c[1..]);
    }
  }

  lemma {:induction false} CommonPrefix(p: Bytes, a: Bytes, b: Bytes)
    ensures Below(p + a, p + b) <==> Below(a, b)
  {
    if p == [] {
      assert p + a == a && p + b == b;
    } else {
      assert (p + a)[1..] == p[1..] + a && (p + b)[1..] == p[1..] + b;
      CommonPrefix(p[1..], a, b);
    }
  }

  /** Where the encodings of two code points first differ. */
  lemma FirstDifference(c: codepoint, d: codepoint) returns (k: nat)
    requires c < d
    ensures var x, y := EncodePoint(c), EncodePoint(d); k < |x| && k < |y| && x[k] < y[k] && x[..k] == y[..k]
  {
    var m, n := c as int, d as int;
    Regroup(m);
    Regroup(n);
    if |EncodePoint(c)| != |EncodePoint(d)| || n < 0x80 {
      k := 0;
    } else if n < 0x800 {
      k := if m / 64 < n / 64 then 0 else 1;
    } else if n < 0x10000 {
      k := if m / 4096 < n / 4096 then 0 else if m / 64 < n / 64 then 1 else 2;
    } else {
      k := if m / 262144 < n / 262144 then 0 else if m / 4096 < n / 4096 then 1 else if m / 64 < n / 64 then 2 else 3;
    }
  }

  /** A smaller code point has smaller bytes, whatever follows either. */
  lemma PointOrder(c: codepoint, d: codepoint, s: Bytes, t: Bytes)
    requires c < d
    ensures Below(EncodePoint(c) + s, EncodePoint(d) + t)
  {
    var k := FirstDifference(c, d);
    var x, y := EncodePoint(c), EncodePoint(d);
    assert x + s == x[..k] + (x[k..] + s) && y + t == x[..k] + (y[k..] + t);
    CommonPrefix(x[..k], x[k..] + s, y[k..] + t);
  }

  lemma {:induction false} BeforeIsBelow(a: Text, b: Text)
    requires Before(a, b)
    ensures Below(Encode(a), Encode(b))
  {
    if a == [] {
      assert Encode(b) != [];
    } else if a[0] < b[0] {
      PointOrder(a[0], b[0], Encode(a[1..]), Encode(b[1..]));
    } else {
      BeforeIsBelow(a[1..], b[1..]);
      CommonPrefix(EncodePoint(a[0]), Encode(a[1..]), Encode(b[1..]));
    }
  }

  /** The order of elements, of strings of them: all strict and total. */
  lemma Orders()
    ensures StrictOrder(ByteLess) && StrictOrder(PointLess) && StrictOrder(Below) && StrictOrder(Before)
  {
    forall a: Bytes, b: Bytes, c: Bytes
      ensures a == b || Below(a, b) || Below(b, a)
      ensures !Below(a, a) && (Below(a, b) && Below(b, c) ==> Below(a, c))
    {
      LexTotal(ByteLess, a, b);
      if Below(a, b) && Below(b, c) { LexTransitive(ByteLess, a, b, c); }
    }
    forall a: Text, b: Text, c: Text
      ensures a == b || Before(a, b) || Before(b, a)
      ensures !Before(a, a) && (Before(a, b) && Before(b, c) ==> Before(a, c))
    {
      LexTotal(PointLess, a, b);
      if Before(a, b) && Before(b, c) { LexTransitive(PointLess, a, b, c); }
    }
  }

  /** UTF-8 byte order is code point order. */
  lemma ByteOrderIsPointOrder(a: Text, b: Text)
    ensures Below(Encode(a), Encode(b)) <==> Before(a, b)
  {
    Orders();
    LexTotal(PointLess, a, b);
    LexTotal(ByteLess, Encode(a), Encode(b));
    if Before(a, b) {
      BeforeIsBelow(a, b);
    } else if a != b {
      BeforeIsBelow(b, a);
    }
  }

  /** No two texts share an encoding. */
  lemma EncodingIsInjective(a: Text, b: Text)
    requires Encode(a) == Encode(b)
    ensures a == b
  {
    Orders();
    LexTotal(PointLess, a, b);
    LexTotal(ByteLess, Encode(a), Encode(b));
    ByteOrderIsPointOrder(a, b);
    ByteOrderIsPointOrder(b, a);
  }
}
