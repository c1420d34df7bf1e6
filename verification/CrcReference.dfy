/** What the checksum is: the remainder of a polynomial division. */
module CrcReference {
  import opened Bytes
  import opened Crc32

  /** Whether x^k occurs in the generator
      x^32 + x^26 + x^23 + x^22 + x^16 + x^12 + x^11 + x^10 + x^8 + x^7 + x^5 + x^4 + x^2 + x + 1. */
  predicate InGenerator(k: nat) {
    k in {0, 1, 2, 4, 5, 7, 8, 10, 11, 12, 16, 22, 23, 26, 32}
  }

  /** Long division of polynomials over the two-element field. A polynomial is its coefficients, highest
      power first: while it is longer than a remainder, the generator is subtracted under its leading
      coefficient if that is set, and the leading place is dropped. */
  function Remainder(s: seq<bool>): (r: seq<bool>)
    ensures |s| >= 32 ==> |r| == 32
    decreases |s|
  {
    if |s| <= 32 then s else Remainder(DivisionStep(s))
  }

  function DivisionStep(s: seq<bool>): (r: seq<bool>)
    requires |s| > 32
    ensures |r| == |s| - 1
  {
    seq(|s| - 1, i requires 0 <= i < |s| - 1 => s[i + 1] != (s[0] && i < 32 && InGenerator(31 - i)))
  }

  /** The first 32 coefficients changed where `c` is set. */
  function Mixed(s: seq<bool>, c: Word): (r: seq<bool>)
    requires |s| >= 32
    ensures |r| == |s|
  {
    seq(|s|, i requires 0 <= i < |s| => s[i] != (i < 32 && c[i]))
  }

  lemma {:induction false} BitsSplit(low: nat, high: nat, k: nat, n: nat)
    requires low < Power2(k)
    ensures BitsOf(Power2(k) * high + low, k + n) == BitsOf(low, k) + BitsOf(high, n)
  {
    if k == 0 {
    } else {
      var half := Power2(k - 1) * high;
      assert Power2(k) * high == 2 * half;
      BitsSplit(low / 2, high, k - 1, n);
    }
  }

  lemma Nibble(b: nat)
    ensures BitsOf(b, 4) == [b % 2 == 1, b / 2 % 2 == 1, b / 4 % 2 == 1, b / 8 % 2 == 1]
  {
    assert BitsOf(b / 4, 2) == [b / 4 % 2 == 1] + BitsOf(b / 8, 1);
    assert BitsOf(b / 8, 1) == [b / 8 % 2 == 1] + BitsOf(b / 16, 0);
  }

  lemma ByteSplits(low: nat, high: nat)
    requires low < 16
    ensures BitsOf(16 * high + low, 8) == BitsOf(low, 4) + BitsOf(high, 4)
  {
    hide BitsOf;
    assert Power2(4) == 16;
    BitsSplit(low, high, 4, 4);
  }

  lemma PolynomialBytes()
    ensures Polynomial() == BitsOf(0x20, 8) + (BitsOf(0x83, 8) + (BitsOf(0xB8, 8) + BitsOf(0xED, 8)))
  {
    hide BitsOf;
    Power2Of32();
    hide Power2;
    BitsSplit(0x20, 0xEDB883, 8, 24);
    BitsSplit(0x83, 0xEDB8, 8, 16);
    BitsSplit(0xB8, 0xED, 8, 8);
  }

  /** The bits of the code's constant, written out. */
  lemma PolynomialBits()
    ensures var f, t := false, true;
            Polynomial() == ([f, f, f, f] + [f, t, f, f]) + (([t, t, f, f] + [f, f, f, t]) +
                            (([f, f, f, t] + [t, t, f, t]) + ([t, f, t, t] + [f, t, t, t])))
  {
    hide BitsOf, Polynomial;
    PolynomialBytes();
    ByteSplits(0x0, 0x2);
    ByteSplits(0x3, 0x8);
    ByteSplits(0x8, 0xB);
    ByteSplits(0xD, 0xE);
    Nibble(0x0);
    Nibble(0x2);
    Nibble(0x3);
    Nibble(0x8);
    Nibble(0xB);
    Nibble(0xD);
    Nibble(0xE);
  }

  /** The constant of the code is the generator without its leading power, lowest power on top. */
  lemma PolynomialIsGenerator()
    ensures forall i :: 0 <= i < 32 ==> Polynomial()[i] == InGenerator(31 - i)
  {
    hide Polynomial;
    PolynomialBits();
    forall i | 0 <= i < 32 ensures Polynomial()[i] == InGenerator(31 - i) {
    }
  }

  /** One clock of the register is one step of the division. */
  lemma ClockDivides(c: Word, bits: seq<bool>)
    requires bits != []
    ensures DivisionStep(Mixed(bits + Zeros(32), c)) == Mixed(bits[1..] + Zeros(32), Clock(c, bits[0]))
  {
    hide Polynomial, InGenerator;
    PolynomialIsGenerator();
  }

  /** Feeding the register a bit string divides the string, followed by 32 zeros and mixed with the old
      register, by the generator. */
  lemma {:induction false} FeedIsRemainder(c: Word, bits: seq<bool>)
    ensures Feed(c, bits) == Remainder(Mixed(bits + Zeros(32), c))
    decreases |bits|
  {
    hide Clock, DivisionStep;
    if bits == [] {
      assert Mixed(bits + Zeros(32), c) == c;
    } else {
      ClockDivides(c, bits);
      FeedIsRemainder(Clock(c, bits[0]), bits[1..]);
    }
  }

  /** The same bits with the first 32 inverted. */
  function Inverted32(s: seq<bool>): (r: seq<bool>)
    requires |s| >= 32
    ensures |r| == |s|
  {
    seq(|s|, i requires 0 <= i < |s| => if i < 32 then !s[i] else s[i])
  }

  /** CRC-32 without registers, tables or the code's constant: take the message bits, each byte lowest
      bit first, and 32 zeros behind them, invert the first 32 bits, divide by the generator, and invert
      the remainder; the coefficient of x^31 is the lowest bit of the answer. */
  lemma CrcIsRemainder(data: Text)
    ensures BitsOf(Crc(data), 32) == Inverted32(Remainder(Inverted32(BitString(data) + Zeros(32))))
  {
    hide Feed, Remainder, BitsOf, NatOf;
    var message := BitString(data) + Zeros(32);
    FeedIsRemainder(Ones(), BitString(data));
    assert Mixed(message, Ones()) == Inverted32(message);
    BitsRoundTrip(CrcWord(data));
  }
}
