/** The header checksum: CRC-32 with the reflected polynomial 0xEDB88320. */
module Crc32 {
  import opened Bytes

  /** A 32-bit word as its bits, least significant first: index 0 is what `& 1` tests. */
  type Word = w: seq<bool> | |w| == 32 witness Zeros(32)

  function Zeros(n: nat): (r: seq<bool>)
    ensures |r| == n && forall i :: 0 <= i < n ==> !r[i]
  {
    seq(n, _ => false)
  }

  /** The lowest `n` bits of `x`. */
  function BitsOf(x: nat, n: nat): (r: seq<bool>)
    ensures |r| == n
  {
    if n == 0 then [] else [x % 2 == 1] + BitsOf(x / 2, n - 1)
  }

  /** The unsigned value of a bit string. */
  function NatOf(bits: seq<bool>): nat {
    if bits == [] then 0 else (if bits[0] then 1 else 0) + 2 * NatOf(bits[1..])
  }

  function Power2(n: nat): (r: nat)
    ensures r >= 1
  {
    if n == 0 then 1 else 2 * Power2(n - 1)
  }

  lemma {:induction false} BitsRoundTrip(bits: seq<bool>)
    ensures NatOf(bits) < Power2(|bits|)
    ensures BitsOf(NatOf(bits), |bits|) == bits
  {
    if bits == [] {
    } else {
      BitsRoundTrip(bits[1..]);
      assert NatOf(bits) / 2 == NatOf(bits[1..]);
    }
  }

  lemma {:induction false} NatRoundTrip(x: nat, n: nat)
    requires x < Power2(n)
    ensures NatOf(BitsOf(x, n)) == x
  {
    if n == 0 {
    } else {
      NatRoundTrip(x / 2, n - 1);
    }
  }

  lemma {:induction false} TopBit(x: nat, n: nat)
    requires n >= 1 && Power2(n - 1) <= x < Power2(n)
    ensures BitsOf(x, n)[n - 1]
  {
    if n == 1 {
    } else {
      TopBit(x / 2, n - 1);
    }
  }

  /** `POLYNOMIAL`; its set top bit is what makes the register step invertible. */
  function Polynomial(): (r: Word)
    ensures r[31]
  {
    Power2Of32();
    TopBit(0xEDB88320, 32);
    BitsOf(0xEDB88320, 32)
  }

  function Xor(a: Word, b: Word): (r: Word)
    ensures forall i :: 0 <= i < 32 ==> r[i] == (a[i] != b[i])
  {
    seq(32, i requires 0 <= i < 32 => a[i] != b[i])
  }

  /** `w >> k`. */
  function Shift(w: Word, k: nat): Word
    requires k <= 32
  {
    w[k..] + Zeros(k)
  }

  // ---------------------------------------------------------------- reference

  /** One clock of the register with message bit `bit`, as in section 8 of RFC 1952. */
  function Clock(c: Word, bit: bool): Word {
    if c[0] != bit then Xor(Shift(c, 1), Polynomial()) else Shift(c, 1)
  }

  /** The register after a whole bit string. */
  function Feed(c: Word, bits: seq<bool>): Word
    decreases |bits|
  {
    if bits == [] then c else Feed(Clock(c, bits[0]), bits[1..])
  }

  /** The bits of a message in transmission order. */
  function BitString(data: Text): (r: seq<bool>)
    ensures |r| == 8 * |data|
  {
    if data == [] then [] else BitsOf(data[0], 8) + BitString(data[1..])
  }

  function Ones(): Word { seq(32, _ => true) }

  /** CRC-32 of a byte string, one message bit at a time. */
  function CrcWord(data: Text): Word {
    Xor(Feed(Ones(), BitString(data)), Ones())
  }

  function Crc(data: Text): (r: u32)
  {
    BitsRoundTrip(CrcWord(data));
    Power2Of32();
    NatOf(CrcWord(data))
  }

  lemma Power2Of32()
    ensures Power2(8) == U8_LIMIT
    ensures Power2(32) == U32_LIMIT
  {
    assert Power2(16) == Power2(8) * 256;
    assert Power2(24) == Power2(16) * 256;
    assert Power2(32) == Power2(24) * 256;
  }

  // ------------------------------------------------ the register step is linear

  /** The step of the table loops: a clock with no message bit. */
  function Step(c: Word): Word {
    if c[0] then Xor(Shift(c, 1), Polynomial()) else Shift(c, 1)
  }

  function Steps(n: nat, c: Word): Word {
    if n == 0 then c else Steps(n - 1, Step(c))
  }

  lemma StepLinear(a: Word, b: Word)
    ensures Step(Xor(a, b)) == Xor(Step(a), Step(b))
  {
    hide Polynomial;
    assert Shift(Xor(a, b), 1) == Xor(Shift(a, 1), Shift(b, 1));
  }

  /** Any number of steps is linear over exclusive or. */
  lemma {:induction false} StepsLinear(n: nat, a: Word, b: Word)
    ensures Steps(n, Xor(a, b)) == Xor(Steps(n, a), Steps(n, b))
  {
    hide Step, Xor;
    if n == 0 {
    } else {
      StepLinear(a, b);
      StepsLinear(n - 1, Step(a), Step(b));
    }
  }

  // ------------------------------------------------- the register step is a bijection

  /** The step run backwards: the top bit tells whether the polynomial was mixed in. */
  function Unstep(c: Word): Word {
    if c[31] then [true] + Xor(c, Polynomial())[..31] else [false] + c[..31]
  }

  lemma StepBack(c: Word)
    ensures Unstep(Step(c)) == c
  {
    hide Polynomial;
    var s := Step(c);
    assert s[31] == c[0];
    assert forall i :: 0 <= i < 31 ==> s[i] == (if c[0] then c[i + 1] != Polynomial()[i] else c[i + 1]);
  }

  lemma StepForth(c: Word)
    ensures Step(Unstep(c)) == c
  {
    hide Polynomial;
    var u := Unstep(c);
    assert u[0] == c[31];
    assert forall i :: 1 <= i < 32 ==> u[i] == (if c[31] then c[i - 1] != Polynomial()[i - 1] else c[i - 1]);
  }

  /** Each register value has exactly one successor and exactly one predecessor. */
  lemma StepBijective(c: Word)
    ensures Unstep(Step(c)) == c
    ensures Step(Unstep(c)) == c
  {
    hide Step, Unstep;
    StepBack(c);
    StepForth(c);
  }

  lemma {:induction false} StepsInjective(n: nat, a: Word, b: Word)
    requires Steps(n, a) == Steps(n, b)
    ensures a == b
  {
    hide Step, Unstep;
    if n == 0 {
    } else {
      StepsInjective(n - 1, Step(a), Step(b));
      StepBijective(a);
      StepBijective(b);
    }
  }

  // ------------------------------------------- feeding up to 32 bits is one xor

  /** At most 32 bits as a word. */
  function Pad(bits: seq<bool>): Word
    requires |bits| <= 32
  {
    bits + Zeros(32 - |bits|)
  }

  lemma XorZero(c: Word)
    ensures Xor(c, Pad([])) == c
  {
  }

  lemma ClockIsStep(c: Word, bit: bool)
    ensures Clock(c, bit) == Step(Xor(c, Pad([bit])))
  {
    hide Polynomial;
    assert Shift(Xor(c, Pad([bit])), 1) == Shift(c, 1);
  }

  /** Peels the first message bit off: one step absorbs it and shifts the rest down. */
  lemma StepOfPad(c: Word, bits: seq<bool>)
    requires 0 < |bits| <= 32
    ensures Step(Xor(c, Pad(bits))) == Xor(Clock(c, bits[0]), Pad(bits[1..]))
  {
    hide Polynomial, Clock;
    var first, rest: Word := Pad([bits[0]]), [false] + Pad(bits[1..])[..31];
    assert Xor(c, Pad(bits)) == Xor(Xor(c, first), rest);
    StepLinear(Xor(c, first), rest);
    ClockIsStep(c, bits[0]);
    assert Step(rest) == Shift(rest, 1) == Pad(bits[1..]);
  }

  /** Feeding at most 32 message bits equals mixing them all into the register first. */
  lemma {:induction false} FeedIsXorThenSteps(c: Word, bits: seq<bool>)
    requires |bits| <= 32
    ensures Feed(c, bits) == Steps(|bits|, Xor(c, Pad(bits)))
    decreases |bits|
  {
    hide Step, Clock, Xor, Pad;
    if bits == [] {
      XorZero(c);
    } else {
      StepOfPad(c, bits);
      FeedIsXorThenSteps(Clock(c, bits[0]), bits[1..]);
    }
  }

  // ------------------------------------------------------------ bursts are detected

  lemma {:induction false} FeedConcat(c: Word, a: seq<bool>, b: seq<bool>)
    ensures Feed(c, a + b) == Feed(Feed(c, a), b)
    decreases |a|
  {
    hide Clock;
    if a == [] {
      assert a + b == b;
    } else {
      assert (a + b)[1..] == a[1..] + b;
      FeedConcat(Clock(c, a[0]), a[1..], b);
    }
  }

  lemma XorCancel(a: Word, b: Word, x: Word)
    requires Xor(a, x) == Xor(b, x)
    ensures a == b
  {
    forall i | 0 <= i < 32 ensures a[i] == b[i] {
      assert Xor(a, x)[i] == Xor(b, x)[i];
    }
  }

  lemma XorCommutes(a: Word, b: Word)
    ensures Xor(a, b) == Xor(b, a)
  {
  }

  lemma {:induction false} FeedInjective(a: Word, b: Word, bits: seq<bool>)
    requires Feed(a, bits) == Feed(b, bits)
    ensures a == b
    decreases |bits|
  {
    hide Step, Unstep, Clock, Xor, Pad;
    if bits == [] {
    } else {
      var bit := Pad([bits[0]]);
      FeedInjective(Clock(a, bits[0]), Clock(b, bits[0]), bits[1..]);
      ClockIsStep(a, bits[0]);
      ClockIsStep(b, bits[0]);
      StepBijective(Xor(a, bit));
      StepBijective(Xor(b, bit));
      XorCancel(a, b, bit);
    }
  }

  lemma PadInjective(u: seq<bool>, v: seq<bool>)
    requires |u| == |v| <= 32 && Pad(u) == Pad(v)
    ensures u == v
  {
    assert u == Pad(u)[..|u|] && v == Pad(v)[..|v|];
  }

  /** Two messages that differ only inside one burst of at most 32 bits, at any bit
      offset, never leave the register in the same state. */
  lemma BurstDetected(c: Word, before: seq<bool>, u: seq<bool>, v: seq<bool>, after: seq<bool>)
    requires |u| == |v| <= 32
    ensures Feed(c, before + u + after) == Feed(c, before + v + after) <==> u == v
  {
    hide Feed, Steps, Pad, Xor;
    FeedConcat(c, before + u, after);
    FeedConcat(c, before, u);
    FeedConcat(c, before + v, after);
    FeedConcat(c, before, v);
    if Feed(c, before + u + after) == Feed(c, before + v + after) {
      var s := Feed(c, before);
      FeedInjective(Feed(s, u), Feed(s, v), after);
      FeedIsXorThenSteps(s, u);
      FeedIsXorThenSteps(s, v);
      StepsInjective(|u|, Xor(s, Pad(u)), Xor(s, Pad(v)));
      XorCommutes(s, Pad(u));
      XorCommutes(s, Pad(v));
      XorCancel(Pad(u), Pad(v), s);
      PadInjective(u, v);
    }
  }

  lemma {:induction false} BitStringConcat(a: Text, b: Text)
    ensures BitString(a + b) == BitString(a) + BitString(b)
  {
    hide BitsOf;
    if a == [] {
      assert a + b == b;
    } else {
      assert (a + b)[1..] == a[1..] + b;
      BitStringConcat(a[1..], b);
    }
  }

  lemma {:induction false} BitStringInjective(a: Text, b: Text)
    requires |a| == |b| && BitString(a) == BitString(b)
    ensures a == b
  {
    if a == [] {
    } else {
      var s, t := BitString(a), BitString(b);
      assert s[..8] == BitsOf(a[0], 8) && t[..8] == BitsOf(b[0], 8);
      assert s[8..] == BitString(a[1..]) && t[8..] == BitString(b[1..]);
      Power2Of32();
      NatRoundTrip(a[0], 8);
      NatRoundTrip(b[0], 8);
      BitStringInjective(a[1..], b[1..]);
      assert a == [a[0]] + a[1..] && b == [b[0]] + b[1..];
    }
  }

  lemma CrcInjective(a: Text, b: Text)
    requires Crc(a) == Crc(b)
    ensures Feed(Ones(), BitString(a)) == Feed(Ones(), BitString(b))
  {
    hide NatOf, Xor, Feed, BitString;
    BitsRoundTrip(CrcWord(a));
    BitsRoundTrip(CrcWord(b));
    XorCancel(Feed(Ones(), BitString(a)), Feed(Ones(), BitString(b)), Ones());
  }

  /** Byte strings that differ only inside a window of four consecutive bytes have different
      checksums, and equal strings equal ones. */
  lemma WindowDetected(before: Text, u: Text, v: Text, after: Text)
    requires |u| == |v| <= 4
    ensures Crc(before + u + after) == Crc(before + v + after) <==> u == v
  {
    hide Feed, BitString, Crc;
    BitStringConcat(before + u, after);
    BitStringConcat(before, u);
    BitStringConcat(before + v, after);
    BitStringConcat(before, v);
    BurstDetected(Ones(), BitString(before), BitString(u), BitString(v), BitString(after));
    if Crc(before + u + after) == Crc(before + v + after) {
      CrcInjective(before + u + after, before + v + after);
      BitStringInjective(u, v);
    }
  }

  // --------------------------------------------------- the table-driven implementation

  /** `k` steps on a word whose low `k` bits are clear only shift it. */
  lemma {:induction false} StepsOfHigh(k: nat, w: Word)
    requires k <= 32 && forall i :: 0 <= i < k ==> !w[i]
    ensures Steps(k, w) == Shift(w, k)
  {
    if k == 0 {
    } else {
      var s := Step(w);
      assert s == Shift(w, 1);
      StepsOfHigh(k - 1, s);
    }
  }

  /** Eight steps split into a shift of the high part and a table look-up of the low byte. */
  lemma EightSteps(c: Word)
    ensures Steps(8, c) == Xor(Shift(c, 8), Steps(8, Pad(c[..8])))
  {
    hide Steps, Step;
    var high: Word := Zeros(8) + c[8..];
    assert c == Xor(high, Pad(c[..8]));
    StepsLinear(8, high, Pad(c[..8]));
    StepsOfHigh(8, high);
    assert Shift(high, 8) == Shift(c, 8);
  }

  /** What the table holds at index `i`. */
  function TableEntry(i: Byte): Word { Steps(8, Pad(BitsOf(i, 8))) }

  /** One byte of message through the table equals its eight bits through the register. */
  lemma TableByte(c: Word, b: Byte, index: Byte)
    requires BitsOf(index, 8) == Xor(c, Pad(BitsOf(b, 8)))[..8]
    ensures Feed(c, BitsOf(b, 8)) == Xor(Shift(c, 8), TableEntry(index))
  {
    hide Steps, Feed;
    FeedIsXorThenSteps(c, BitsOf(b, 8));
    EightSteps(Xor(c, Pad(BitsOf(b, 8))));
    assert Shift(Xor(c, Pad(BitsOf(b, 8))), 8) == Shift(c, 8);
  }

  lemma {:induction false} StepsLast(n: nat, c: Word)
    ensures Steps(n + 1, c) == Step(Steps(n, c))
  {
    hide Step;
    if n == 0 {
    } else {
      StepsLast(n - 1, Step(c));
    }
  }

  /** The module-level table and its flag. The flag is never set, so each call refills it. */
  class Engine {
    const table: array<Word>
    var tableReady: bool

    ghost predicate Valid()
      reads this, table
    {
      table.Length == 256 && (tableReady ==> Filled())
    }

    ghost predicate Filled()
      requires table.Length == 256
      reads table
    {
      forall i :: 0 <= i < 256 ==> table[i] == TableEntry(i)
    }

    constructor ()
      ensures Valid() && fresh(table) && !tableReady
    {
      table := new Word[256];
      tableReady := false;
    }

    /** The inner loop: eight conditional shifts of `i`. */
    static method Entry(i: Byte) returns (stored: Word)
      ensures stored == TableEntry(i)
    {
      hide Step;
      stored := Pad(BitsOf(i, 8));
      var j := 0;
      while j < 8
        invariant 0 <= j <= 8
        invariant stored == Steps(j, Pad(BitsOf(i, 8)))
      {
        StepsLast(j, Pad(BitsOf(i, 8)));
        StepBranches(stored);
        if stored[0] {
          stored := Shift(stored, 1);
          stored := Xor(stored, Polynomial());
        } else {
          stored := Shift(stored, 1);
        }
        j := j + 1;
      }
    }

    method FillTable()
      requires table.Length == 256
      modifies table
      ensures Filled()
    {
      hide TableEntry;
      var i := 0;
      while i < 256
        invariant 0 <= i <= 256
        invariant forall k :: 0 <= k < i ==> table[k] == TableEntry(k)
      {
        var stored := Entry(i);
        table[i] := stored;
        i := i + 1;
      }
    }

    /** `crc32`: the answer never depends on what the table held before the call. */
    method Crc32(data: Text) returns (r: u32)
      requires Valid()
      modifies table
      ensures Valid() && tableReady == old(tableReady)
      ensures r == Crc(data)
    {
      hide TableEntry, Xor, Feed, Crc, NatOf, BitsOf, Shift, Pad;
      var crc: Word := Ones();
      if !tableReady {
        FillTable();
      }
      var i := 0;
      FeedNothing(Ones());
      while i < |data|
        invariant 0 <= i <= |data| && Filled()
        invariant crc == Feed(Ones(), BitString(data[..i]))
      {
        var index := Index(crc, data[i]);
        TableByte(crc, data[i], index);
        FeedByte(Ones(), data[..i], data[i]);
        assert data[..i] + [data[i]] == data[..i + 1];
        crc := Xor(Shift(crc, 8), table[index]);
        i := i + 1;
      }
      assert data[..|data|] == data;
      r := Finish(Xor(crc, Ones()), data);
    }
  }

  lemma StepBranches(c: Word)
    ensures Step(c) == if c[0] then Xor(Shift(c, 1), Polynomial()) else Shift(c, 1)
  {
  }

  /** The low byte of the register mixed with the message byte: the table slot to use. */
  function Index(crc: Word, b: Byte): (r: Byte)
    ensures BitsOf(r, 8) == Xor(crc, Pad(BitsOf(b, 8)))[..8]
  {
    var low := Xor(crc, Pad(BitsOf(b, 8)))[..8];
    BitsRoundTrip(low);
    Power2Of32();
    NatOf(low)
  }

  function Finish(w: Word, ghost data: Text): (r: u32)
    requires w == CrcWord(data)
    ensures r == Crc(data)
  {
    BitsRoundTrip(w);
    Power2Of32();
    NatOf(w)
  }

  lemma FeedNothing(c: Word)
    ensures Feed(c, BitString([])) == c
  {
  }

  lemma FeedByte(c: Word, data: Text, b: Byte)
    ensures Feed(c, BitString(data + [b])) == Feed(Feed(c, BitString(data)), BitsOf(b, 8))
  {
    hide Feed, BitsOf;
    BitStringConcat(data, [b]);
    assert BitString([b]) == BitsOf(b, 8) + BitString([]);
    assert BitString([b]) == BitsOf(b, 8);
    FeedConcat(c, BitString(data), BitsOf(b, 8));
  }
}
