/**
 The CCITT CRC of grblHAL, compared with polynomial division over GF(2).
 */
module CrcCcitt {
  import opened Words

  /** x^12 + x^5 + 1: the generator of ITU-T V.41 without its leading x^16. */
  const POLY: bv16 := 0x1021

  // ----- long division, one message bit at a time

  /** The remainder register times x, reduced. */
  function TimesX(r: bv16): bv16 {
    if r & 0x8000 != 0 then (r << 1) ^ POLY else r << 1
  }

  /** One step of long division: bring down the next bit, subtract the divisor if it fits. */
  function Divide(r: bv16, b: bool): bv16 {
    Xor(TimesX(r), Low(b))
  }

  /** The remainder of the polynomial with these coefficients, highest power first. */
  function Remainder(bits: seq<bool>): bv16 {
    if bits == [] then 0 else Divide(Remainder(bits[..|bits| - 1]), bits[|bits| - 1])
  }

  function Zeros(n: nat): seq<bool> {
    seq(n, _ => false)
  }

  /** The CRC of a bit string: the remainder of the message times x^16. */
  function Crc(bits: seq<bool>): bv16 {
    Remainder(bits + Zeros(16))
  }

  // ----- the register step that needs no appended zeros

  function TimesXTo(r: bv16, n: nat): bv16 {
    if n == 0 then r else TimesX(TimesXTo(r, n - 1))
  }

  function Low(b: bool): bv16 { if b then 1 else 0 }

  function Top(b: bool): bv16 { if b then 0x8000 else 0 }

  function Step(c: bv16, b: bool): bv16 {
    TimesX(Xor(c, Top(b)))
  }

  function Steps(c: bv16, bits: seq<bool>): bv16 {
    if bits == [] then c else Step(Steps(c, bits[..|bits| - 1]), bits[|bits| - 1])
  }

  lemma TimesXLinear(a: bv16, b: bv16)
    ensures TimesX(Xor(a, b)) == Xor(TimesX(a), TimesX(b))
  {
    ShiftXor(a, b);
    TopXor(a, b);
    TimesXCases(a);
    TimesXCases(b);
    TimesXCases(Xor(a, b));
    hide TimesX, Xor, Up1, TopBit;
    XorAssociates(Up1(a), Up1(b), POLY);
    XorMiddle(Up1(a), Up1(b), POLY);
    XorPairs(Up1(a), Up1(b), POLY);
  }

  function Up1(r: bv16): bv16 { r << 1 }

  function TopBit(r: bv16): bool { r & 0x8000 != 0 }

  lemma TimesXCases(r: bv16)
    ensures TimesX(r) == if TopBit(r) then Xor(Up1(r), POLY) else Up1(r)
  {
  }

  lemma ShiftXor(a: bv16, b: bv16)
    ensures Up1(Xor(a, b)) == Xor(Up1(a), Up1(b))
  {
  }

  lemma TopXor(a: bv16, b: bv16)
    ensures TopBit(Xor(a, b)) == (TopBit(a) != TopBit(b))
  {
  }

  lemma {:induction false} TimesXToLinear(a: bv16, b: bv16, n: nat)
    ensures TimesXTo(Xor(a, b), n) == Xor(TimesXTo(a, n), TimesXTo(b, n))
  {
    hide TimesX, Xor;
    if n > 0 {
      TimesXToLinear(a, b, n - 1);
      TimesXLinear(TimesXTo(a, n - 1), TimesXTo(b, n - 1));
    }
  }

  lemma {:induction false} TimesXToSuccessor(r: bv16, n: nat)
    ensures TimesXTo(TimesX(r), n) == TimesX(TimesXTo(r, n))
  {
    hide TimesX, Xor;
    if n > 0 {
      TimesXToSuccessor(r, n - 1);
    }
  }

  /** x^15 * x is the generator's remainder, so a bit at the top of the register counts as x^16. */
  lemma TopIsX16()
    ensures TimesXTo(1, 16) == TimesX(0x8000)
  {
    assert TimesXTo(1, 4) == 0x10;
    assert TimesXTo(1, 8) == 0x100;
    assert TimesXTo(1, 12) == 0x1000;
    assert TimesXTo(1, 15) == 0x8000;
  }

  lemma {:induction false} DivideZeros(bits: seq<bool>, n: nat)
    ensures Remainder(bits + Zeros(n)) == TimesXTo(Remainder(bits), n)
  {
    hide TimesX, Xor;
    if n == 0 {
      assert bits + Zeros(0) == bits;
    } else {
      DivideZeros(bits, n - 1);
      var all := bits + Zeros(n);
      assert all[..|all| - 1] == bits + Zeros(n - 1);
      XorZero(TimesX(Remainder(bits + Zeros(n - 1))));
    }
  }

  /** Feeding each bit to the top of the register computes the CRC of the whole message. */
  lemma {:induction false} StepsIsCrc(bits: seq<bool>)
    ensures Steps(0, bits) == Crc(bits)
  {
    DivideZeros(bits, 16);
    if bits == [] {
      ZeroStays(16);
    } else {
      var front, b := bits[..|bits| - 1], bits[|bits| - 1];
      StepsIsCrc(front);
      DivideZeros(front, 16);
      StepMatches(Remainder(front), b);
    }
  }

  lemma {:induction false} ZeroStays(n: nat)
    ensures TimesXTo(0, n) == 0
  {
    if n > 0 { ZeroStays(n - 1); }
  }

  lemma StepMatches(r: bv16, b: bool)
    ensures TimesXTo(Divide(r, b), 16) == Step(TimesXTo(r, 16), b)
  {
    hide TimesX, TimesXTo, Xor;
    TimesXToLinear(TimesX(r), Low(b), 16);
    TimesXToSuccessor(r, 16);
    TimesXLinear(TimesXTo(r, 16), Top(b));
    TopIsX16();
    ZeroStays(16);
    ZeroStays(1);
    XorZero(TimesXTo(r, 16));
    XorZero(TimesX(TimesXTo(r, 16)));
  }

  // ----- the byte-wise form

  /** The weight of the k-th bit of a byte, most significant first. */
  function Mask(k: nat): bv8
    requires k < 8
  {
    if k == 0 then 0x80 else if k == 1 then 0x40 else if k == 2 then 0x20 else if k == 3 then 0x10
    else if k == 4 then 8 else if k == 5 then 4 else if k == 6 then 2 else 1
  }

  function BitOf(b: bv8, k: nat): bool
    requires k < 8
  {
    b & Mask(k) != 0
  }

  function LeadingBits(b: bv8, k: nat): (bits: seq<bool>)
    requires k <= 8
    ensures |bits| == k
  {
    if k == 0 then [] else LeadingBits(b, k - 1) + [BitOf(b, k - 1)]
  }

  function ByteBits(b: bv8): seq<bool> {
    LeadingBits(b, 8)
  }

  function MessageBits(msg: seq<bv8>): seq<bool> {
    if msg == [] then [] else MessageBits(msg[..|msg| - 1]) + ByteBits(msg[|msg| - 1])
  }

  /** The table-free update of the firmware. */
  function FastByte(crc: bv16, b: bv8): bv16 {
    Xor(Up8(crc), Spread(Fold(Xor(Down8(crc), Wide(b)))))
  }

  function FastCrc(msg: seq<bv8>): bv16 {
    if msg == [] then 0 else FastByte(FastCrc(msg[..|msg| - 1]), msg[|msg| - 1])
  }

  function Up8(d: bv16): bv16 { d << 8 }

  function Down8(d: bv16): bv16 { d >> 8 }

  function Fold(y: bv16): bv16 { y ^ (y >> 4) }

  function Spread(x: bv16): bv16 { (x << 12) ^ (x << 5) ^ x }

  /** The update as a function of the register with the byte already in its upper half. */
  function Fast(d: bv16): bv16 {
    Xor(Up8(d), Spread(Fold(Down8(d))))
  }

  function Feed(c: bv16, b: bv8): bv16 {
    Xor(c, Up8(Wide(b)))
  }

  lemma FastByteIsFast(c: bv16, b: bv8)
    ensures FastByte(c, b) == Fast(Feed(c, b))
  {
    FeedShifts(c, Wide(b));
    hide Xor, Up8, Down8, Fold, Spread, Wide;
  }

  lemma ChainIsSpread(c: bv16, x: bv16)
    ensures (c << 8) ^ (x << 12) ^ (x << 5) ^ x == Xor(Up8(c), Spread(x))
  {
  }

  lemma FeedShifts(c: bv16, w: bv16)
    requires w & 0xFF00 == 0
    ensures Down8(Xor(c, Up8(w))) == Xor(Down8(c), w) && Up8(Xor(c, Up8(w))) == Up8(c)
  {
  }

  lemma FastHigh(d: bv16)
    requires d & 0xFF == 0
    ensures Fast(d) == TimesXTo(d, 8)
  {
    assert Fast(d) == TimesX(TimesX(TimesX(TimesX(TimesX(TimesX(TimesX(TimesX(d))))))));
    Unroll8(d);
  }

  lemma FastLow(d: bv16)
    requires d & 0xFF00 == 0
    ensures Fast(d) == TimesXTo(d, 8) == d << 8
  {
    assert Fast(d) == TimesX(TimesX(TimesX(TimesX(TimesX(TimesX(TimesX(TimesX(d))))))));
    Unroll8(d);
  }

  lemma Unroll8(d: bv16)
    ensures TimesXTo(d, 8) == TimesX(TimesX(TimesX(TimesX(TimesX(TimesX(TimesX(TimesX(d))))))))
  {
    hide TimesX;
    assert TimesXTo(d, 1) == TimesX(TimesXTo(d, 0));
    assert TimesXTo(d, 2) == TimesX(TimesX(d));
    assert TimesXTo(d, 4) == TimesX(TimesX(TimesXTo(d, 2)));
    assert TimesXTo(d, 6) == TimesX(TimesX(TimesXTo(d, 4)));
  }

  function High(d: bv16): bv16 { d & 0xFF00 }

  function LowHalf(d: bv16): bv16 { d & 0xFF }

  lemma Halves(d: bv16)
    ensures Xor(High(d), LowHalf(d)) == d
    ensures High(d) & 0xFF == 0 && LowHalf(d) & 0xFF00 == 0
  {
  }

  lemma HalfShifts(d: bv16)
    ensures Down8(High(d)) == Down8(d) && Up8(High(d)) == 0
    ensures Down8(LowHalf(d)) == 0 && Up8(LowHalf(d)) == Up8(d)
    ensures Spread(Fold(0)) == 0
  {
  }

  lemma FastSplits(d: bv16)
    ensures Fast(d) == Xor(Fast(High(d)), Fast(LowHalf(d)))
  {
    HalfShifts(d);
    hide High, LowHalf, Spread, Fold, Xor, Up8, Down8;
    XorZero(Spread(Fold(Down8(d))));
    XorZero(Up8(d));
    XorSwaps(Up8(d), Spread(Fold(Down8(d))));
  }

  lemma FastIsEightSteps(d: bv16)
    ensures Fast(d) == TimesXTo(d, 8)
  {
    hide Fast, Xor, High, LowHalf;
    FastSplits(d);
    Halves(d);
    FastHigh(High(d));
    FastLow(LowHalf(d));
    TimesXToLinear(High(d), LowHalf(d), 8);
  }

  /** Bit k of a byte where `Feed` puts it: k shifts bring it to the top of the register. */
  function Place(k: nat, on: bool): bv16
    requires k < 8
  {
    if on then Up8(Wide(Mask(k))) else 0
  }

  function Placed(b: bv8, k: nat): bv16
    requires k <= 8
  {
    if k == 0 then 0 else Xor(Placed(b, k - 1), Place(k - 1, BitOf(b, k - 1)))
  }

  lemma {:induction false} PlaceRises(k: nat, on: bool)
    requires k < 8
    ensures TimesXTo(Place(k, on), k) == Top(on)
  {
    if !on {
      ZeroStays(k);
    } else if k > 0 {
      PlaceRises(k - 1, on);
      assert TimesX(Place(k, on)) == Place(k - 1, on);
      hide TimesX;
      TimesXToSuccessor(Place(k, on), k - 1);
    }
  }

  lemma {:induction false} StepsPlaced(c: bv16, b: bv8, k: nat)
    requires k <= 8
    ensures Steps(c, LeadingBits(b, k)) == TimesXTo(Xor(c, Placed(b, k)), k)
  {
    hide TimesX, Xor, Place, BitOf, Top;
    if k == 0 {
      XorZero(c);
    } else {
      StepsPlaced(c, b, k - 1);
      var bits := LeadingBits(b, k);
      assert bits[..k - 1] == LeadingBits(b, k - 1);
      PlaceRises(k - 1, BitOf(b, k - 1));
      TimesXToLinear(Xor(c, Placed(b, k - 1)), Place(k - 1, BitOf(b, k - 1)), k - 1);
      XorAssociates(c, Placed(b, k - 1), Place(k - 1, BitOf(b, k - 1)));
    }
  }

  /** The k leading bits of a byte. */
  function Lead(k: nat): bv8
    requires k <= 8
  {
    if k == 0 then 0 else With(Lead(k - 1), Mask(k - 1))
  }

  function With(a: bv8, b: bv8): bv8 { a | b }

  function And(a: bv8, b: bv8): bv8 { a & b }

  /** The register after the bits of a byte that `lead` selects have been fed to it. */
  function Kept(b: bv8, lead: bv8): bv16 { Up8(Wide(And(b, lead))) }

  lemma MaskedBit(b: bv8, k: nat)
    requires k < 8
    ensures Place(k, BitOf(b, k)) == Up8(Wide(And(b, Mask(k))))
  {
    assert b & Mask(k) == Mask(k) || b & Mask(k) == 0;
  }

  lemma Disjoint(a: bv8, m: bv8)
    requires And(a, m) == 0
    ensures Xor(Up8(Wide(a)), Up8(Wide(m))) == Up8(Wide(With(a, m)))
  {
  }

  lemma Distribute(b: bv8, lead: bv8, mask: bv8)
    requires And(lead, mask) == 0
    ensures And(And(b, lead), And(b, mask)) == 0
    ensures And(b, With(lead, mask)) == With(And(b, lead), And(b, mask))
  {
  }

  lemma PlaceOne(b: bv8, lead: bv8, k: nat)
    requires k < 8 && And(lead, Mask(k)) == 0
    ensures Xor(Kept(b, lead), Place(k, BitOf(b, k))) == Kept(b, With(lead, Mask(k)))
  {
    hide Place, BitOf, Xor, Up8, Wide, With, Mask, And;
    MaskedBit(b, k);
    Distribute(b, lead, Mask(k));
    Disjoint(And(b, lead), And(b, Mask(k)));
  }

  lemma {:induction false} PlacedLead(b: bv8, k: nat)
    requires k <= 8
    ensures Placed(b, k) == Kept(b, Lead(k))
  {
    hide Xor, Kept, With, Place, BitOf, Mask, And;
    if k == 0 {
      NoLead(b);
    } else {
      PlacedLead(b, k - 1);
      LeadFree(k - 1);
      PlaceOne(b, Lead(k - 1), k - 1);
    }
  }

  lemma NoLead(b: bv8)
    ensures Kept(b, 0) == 0
  {
  }

  lemma LeadFree(k: nat)
    requires k < 8
    ensures And(Lead(k), Mask(k)) == 0
  {
    LeadValues();
  }

  lemma LeadValues()
    ensures Lead(1) == 0x80 && Lead(2) == 0xC0 && Lead(3) == 0xE0 && Lead(4) == 0xF0
    ensures Lead(5) == 0xF8 && Lead(6) == 0xFC && Lead(7) == 0xFE && Lead(8) == 0xFF
  {
    assert Lead(0) == 0;
    assert Lead(1) == 0x80;
    assert Lead(2) == 0xC0;
    assert Lead(3) == 0xE0;
    assert Lead(4) == 0xF0;
    assert Lead(5) == 0xF8;
    assert Lead(6) == 0xFC;
    assert Lead(7) == 0xFE;
  }

  lemma PlacedByte(b: bv8)
    ensures Placed(b, 8) == Up8(Wide(b))
  {
    PlacedLead(b, 8);
    LeadValues();
    assert b & 0xFF == b;
  }

  /** The byte update does what eight register steps do. */
  lemma FastByteIsSteps(c: bv16, b: bv8)
    ensures FastByte(c, b) == Steps(c, ByteBits(b))
  {
    FastByteIsFast(c, b);
    FastIsEightSteps(Feed(c, b));
    StepsPlaced(c, b, 8);
    PlacedByte(b);
    hide Fast, FastByte, Steps, TimesXTo, Xor, Placed, Up8, Wide;
  }

  lemma {:induction false} StepsConcat(c: bv16, a: seq<bool>, b: seq<bool>)
    ensures Steps(c, a + b) == Steps(Steps(c, a), b)
  {
    hide Step;
    if b == [] {
      assert a + b == a;
    } else {
      StepsConcat(c, a, b[..|b| - 1]);
      assert (a + b)[..|a + b| - 1] == a + b[..|b| - 1];
    }
  }

  /** The firmware's CRC of every message is the remainder of polynomial long division. */
  lemma {:induction false} FastCrcIsDivision(msg: seq<bv8>)
    ensures FastCrc(msg) == Crc(MessageBits(msg))
  {
    hide FastByte, Step, Crc, ByteBits;
    StepsIsCrc(MessageBits(msg));
    if msg != [] {
      var front, b := msg[..|msg| - 1], msg[|msg| - 1];
      FastCrcIsDivision(front);
      StepsIsCrc(MessageBits(front));
      FastByteIsSteps(FastCrc(front), b);
      StepsConcat(0, MessageBits(front), ByteBits(b));
    }
  }

  method CcittCrc16(buf: array<bv8>, len: nat) returns (crc: bv16)
    requires len <= buf.Length
    ensures crc == FastCrc(buf[..len]) == Crc(MessageBits(buf[..len]))
  {
    hide FastByte, Crc;
    crc := 0;
    var i := 0;
    while i < len
      invariant 0 <= i <= len
      invariant crc == FastCrc(buf[..i])
    {
      var x: bv16 := (crc >> 8) ^ (buf[i] as bv16);
      ghost var y := x;
      x := x ^ (x >> 4);
      ChainIsByte(crc, buf[i], y, x);
      crc := (crc << 8) ^ (x << 12) ^ (x << 5) ^ x;
      assert buf[..i + 1][..i] == buf[..i];
      i := i + 1;
    }
    FastCrcIsDivision(buf[..len]);
  }

  lemma ChainIsByte(crc: bv16, b: bv8, y: bv16, x: bv16)
    requires y == (crc >> 8) ^ (b as bv16) && x == y ^ (y >> 4)
    ensures (crc << 8) ^ (x << 12) ^ (x << 5) ^ x == FastByte(crc, b)
  {
    hide Xor, Spread, Fold, Up8, Down8, Wide;
    Literal1(crc, b);
    Literal2(y);
    ChainIsSpread(crc, x);
  }

  lemma Literal1(crc: bv16, b: bv8)
    ensures (crc >> 8) ^ (b as bv16) == Xor(Down8(crc), Wide(b))
  {
  }

  lemma Literal2(y: bv16)
    ensures y ^ (y >> 4) == Fold(y)
  {
  }

  // ----- the check value

  lemma OneMore(msg: seq<bv8>, k: nat)
    requires k < |msg|
    ensures FastCrc(msg[..k + 1]) == FastByte(FastCrc(msg[..k]), msg[k])
  {
    assert msg[..k + 1][..k] == msg[..k];
  }

  lemma CheckBytes()
    ensures FastByte(0x0000, 0x31) == 0x2672
    ensures FastByte(0x2672, 0x32) == 0x20B5
    ensures FastByte(0x20B5, 0x33) == 0x9752
    ensures FastByte(0x9752, 0x34) == 0xD789
    ensures FastByte(0xD789, 0x35) == 0x546C
    ensures FastByte(0x546C, 0x36) == 0x20E4
    ensures FastByte(0x20E4, 0x37) == 0x86D6
    ensures FastByte(0x86D6, 0x38) == 0x9015
    ensures FastByte(0x9015, 0x39) == 0x31C3
  {
  }

  /** The published check value of this CRC, started from zero: that of the digits 1 to 9 is 0x31C3. */
  lemma CheckValue()
    ensures FastCrc([0x31, 0x32, 0x33, 0x34, 0x35, 0x36, 0x37, 0x38, 0x39]) == 0x31C3
  {
    CheckBytes();
    hide FastByte;
    var m: seq<bv8> := [0x31, 0x32, 0x33, 0x34, 0x35, 0x36, 0x37, 0x38, 0x39];
    assert m[..0] == [] && m[..9] == m;
    OneMore(m, 0);
    OneMore(m, 1);
    OneMore(m, 2);
    OneMore(m, 3);
    OneMore(m, 4);
    OneMore(m, 5);
    OneMore(m, 6);
    OneMore(m, 7);
    OneMore(m, 8);
  }
}
