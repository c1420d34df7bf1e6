/** Bytes, unsigned machine integers and the big-endian layout used by every message. */
module Bytes {

  const U8_LIMIT := 0x100
  const U16_LIMIT := 0x1_0000
  const U32_LIMIT := 0x1_0000_0000
  const U64_LIMIT := 0x1_0000_0000_0000_0000

  type Byte = x: int | 0 <= x < U8_LIMIT
  type Text = seq<Byte>
  type u16 = x: int | 0 <= x < U16_LIMIT
  type u32 = x: int | 0 <= x < U32_LIMIT
  type u64 = x: int | 0 <= x < U64_LIMIT

  datatype Option<+T> = None | Some(value: T)

  /** `256^k`: one more than the largest value that fits in `k` bytes. */
  function Limit(k: nat): (r: int)
    ensures r >= 1
  {
    if k == 0 then 1 else 256 * Limit(k - 1)
  }

  /** `x >> 8*k` on an unsigned value. */
  function ShiftRight(x: nat, k: nat): nat {
    if k == 0 then x else ShiftRight(x / 256, k - 1)
  }

  /** The lowest `width` bytes of `x`, most significant first. */
  function BigEndian(x: nat, width: nat): (r: Text)
    ensures |r| == width
  {
    if width == 0 then [] else BigEndian(x / 256, width - 1) + [x % 256]
  }

  /** The unsigned value of a big-endian byte string. */
  function Value(s: Text): (r: nat) {
    if s == [] then 0 else 256 * Value(s[..|s| - 1]) + s[|s| - 1]
  }

  /** Decoding undoes encoding, up to the bytes that the width cuts off. */
  lemma {:induction false} ValueOfBigEndian(x: nat, width: nat)
    ensures Value(BigEndian(x, width)) == x % Limit(width)
  {
    if width == 0 {
    } else {
      var q, m := x / 256, Limit(width - 1);
      var s := BigEndian(x, width);
      assert s[..|s| - 1] == BigEndian(q, width - 1);
      ValueOfBigEndian(q, width - 1);
      ModularDigit(q, x % 256, m);
    }
  }

  lemma ModularDigit(q: nat, low: nat, m: int)
    requires m >= 1 && low < 256
    ensures (256 * q + low) % (256 * m) == 256 * (q % m) + low
  {
    var k, r := q / m, q % m;
    assert 256 * q + low == (256 * m) * k + (256 * r + low);
    assert 0 <= 256 * r + low < 256 * m;
    QuotientUnique(256 * q + low, 256 * m, k, 256 * r + low);
  }

  lemma MultipleInRange(d: int, t: int)
    requires d >= 1 && -d < d * t < d
    ensures t == 0
  {
  }

  lemma QuotientUnique(x: int, d: int, k: int, r: int)
    requires d >= 1 && x == d * k + r && 0 <= r < d
    ensures x % d == r && x / d == k
  {
    var k', r' := x / d, x % d;
    assert x == d * k' + r';
    assert d * (k' - k) == r - r';
    MultipleInRange(d, k' - k);
  }

  /** Encoding undoes decoding. */
  lemma {:induction false} BigEndianOfValue(s: Text)
    ensures Value(s) < Limit(|s|)
    ensures BigEndian(Value(s), |s|) == s
  {
    if s == [] {
    } else {
      var front, last := s[..|s| - 1], s[|s| - 1];
      BigEndianOfValue(front);
      assert Value(s) / 256 == Value(front) && Value(s) % 256 == last;
      assert s == front + [last];
    }
  }

  lemma LimitValues()
    ensures Limit(1) == U8_LIMIT
    ensures Limit(2) == U16_LIMIT
    ensures Limit(4) == U32_LIMIT
    ensures Limit(8) == U64_LIMIT
  {
    assert Limit(4) == 256 * (256 * Limit(2));
    assert Limit(6) == 256 * (256 * Limit(4));
    assert Limit(8) == 256 * (256 * Limit(6));
  }

  /** A value that fits its field survives the trip through the wire. */
  lemma FieldRoundTrip(x: nat, width: nat)
    requires x < Limit(width)
    ensures Value(BigEndian(x, width)) == x
  {
    ValueOfBigEndian(x, width);
    QuotientUnique(x, Limit(width), 0, x);
  }

  lemma {:induction false} BigEndianAt(x: nat, width: nat, i: nat)
    requires i < width
    ensures BigEndian(x, width)[i] == ShiftRight(x, width - 1 - i) % 256
  {
    if i == width - 1 {
    } else {
      BigEndianAt(x / 256, width - 1, i);
    }
  }

  /** Appends the bytes of `x` one at a time, the most significant of the field first. */
  method PushBigEndian(buffer: Text, x: nat, width: nat) returns (out: Text)
    ensures out == buffer + BigEndian(x, width)
  {
    out := buffer;
    var i := 0;
    while i < width
      invariant i <= width
      invariant out == buffer + BigEndian(x, width)[..i]
    {
      BigEndianAt(x, width, i);
      out := out + [ShiftRight(x, width - 1 - i) % 256];
      i := i + 1;
    }
  }

  /** Puts the next byte in its place below the bytes already read. */
  lemma AddByte(s: Text, b: Byte, places: nat)
    requires places > 0
    ensures Value(s) * Limit(places) + b * Limit(places - 1) == Value(s + [b]) * Limit(places - 1)
  {
    assert (s + [b])[..|s|] == s;
    PlaceValue(Value(s), b, Limit(places - 1));
  }

  lemma NoBytes(data: Text, counter: nat, width: nat)
    requires counter <= |data|
    ensures 0 == Value(data[counter..counter]) * Limit(width) && Limit(0) == 1
  {
  }

  lemma PlaceValue(v: int, b: int, place: int)
    ensures v * (256 * place) + b * place == (256 * v + b) * place
  {
  }

  /** Reads `width` bytes at `counter`, each shifted into its own place; the shifted
      bytes share no bit, so the bitwise or is a sum. */
  method ReadBigEndian(data: Text, counter: nat, width: nat) returns (x: nat, next: nat)
    requires counter + width <= |data|
    ensures x == Value(data[counter..counter + width])
    ensures next == counter + width
  {
    hide Value, Limit;
    x, next := 0, counter;
    NoBytes(data, counter, width);
    var i := 0;
    while i < width
      invariant i <= width && next == counter + i
      invariant x == Value(data[counter..counter + i]) * Limit(width - i)
    {
      var place := Limit(width - 1 - i);
      AddByte(data[counter..next], data[next], width - i);
      assert data[counter..next] + [data[next]] == data[counter..next + 1];
      x := x + data[next] * place;
      next, i := next + 1, i + 1;
    }
  }
}
