/**
 What the CCITT CRC detects: bursts, linearity and the check word.
 */
module CrcCcittDetection {
  import opened Words
  import opened CrcCcitt

  // ----- every register step can be undone

  function OverX(r: bv16): bv16 {
    if r & 1 != 0 then ((r ^ POLY) >> 1) ^ 0x8000 else r >> 1
  }

  lemma OverXUndoes(r: bv16)
    ensures OverX(TimesX(r)) == r
  {
    if r & 0x8000 != 0 {
      TopSet(r);
    } else {
      TopClear(r);
    }
  }

  lemma TopClear(r: bv16)
    requires r & 0x8000 == 0
    ensures TimesX(r) & 1 == 0 && TimesX(r) >> 1 == r
  {
  }

  lemma TopSet(r: bv16)
    requires r & 0x8000 != 0
    ensures TimesX(r) & 1 != 0 && ((TimesX(r) ^ POLY) >> 1) ^ 0x8000 == r
  {
    var a := r << 1;
    EvenOdd(a);
    XorTwice(a, POLY);
    RestoreTop(r);
  }

  lemma EvenOdd(a: bv16)
    requires a & 1 == 0
    ensures (a ^ POLY) & 1 != 0
  {
  }

  lemma RestoreTop(r: bv16)
    requires r & 0x8000 != 0
    ensures ((r << 1) >> 1) ^ 0x8000 == r
  {
  }

  lemma TimesXInjective(a: bv16, b: bv16)
    requires TimesX(a) == TimesX(b)
    ensures a == b
  {
    hide TimesX, OverX;
    OverXUndoes(a);
    OverXUndoes(b);
  }

  lemma {:induction false} TimesXToInjective(a: bv16, b: bv16, n: nat)
    requires TimesXTo(a, n) == TimesXTo(b, n)
    ensures a == b
  {
    hide TimesX;
    if n > 0 {
      TimesXInjective(TimesXTo(a, n - 1), TimesXTo(b, n - 1));
      TimesXToInjective(a, b, n - 1);
    }
  }

  lemma {:induction false} StepsInjective(a: bv16, b: bv16, bits: seq<bool>)
    requires Steps(a, bits) == Steps(b, bits)
    ensures a == b
  {
    hide TimesX, Xor, Top;
    if bits != [] {
      var front, last := bits[..|bits| - 1], bits[|bits| - 1];
      TimesXInjective(Xor(Steps(a, front), Top(last)), Xor(Steps(b, front), Top(last)));
      XorCancels(Steps(a, front), Steps(b, front), Top(last));
      StepsInjective(a, b, front);
    }
  }

  // ----- linearity

  function XorBits(a: seq<bool>, b: seq<bool>): (c: seq<bool>)
    requires |a| == |b|
    ensures |c| == |a|
  {
    seq(|a|, i requires 0 <= i < |a| => a[i] != b[i])
  }

  lemma TopXorBits(a: bool, b: bool)
    ensures Top(a != b) == Xor(Top(a), Top(b))
  {
  }

  lemma {:induction false} StepsLinear(c: bv16, d: bv16, a: seq<bool>, b: seq<bool>)
    requires |a| == |b|
    ensures Steps(Xor(c, d), XorBits(a, b)) == Xor(Steps(c, a), Steps(d, b))
  {
    hide TimesX, Xor, Top;
    if a != [] {
      var n := |a| - 1;
      StepsLinear(c, d, a[..n], b[..n]);
      assert XorBits(a, b)[..n] == XorBits(a[..n], b[..n]);
      TopXorBits(a[n], b[n]);
      XorExchange(Steps(c, a[..n]), Steps(d, b[..n]), Top(a[n]), Top(b[n]));
      TimesXLinear(Xor(Steps(c, a[..n]), Top(a[n])), Xor(Steps(d, b[..n]), Top(b[n])));
    }
  }

  /** The CRC of the difference of two messages is the difference of their CRCs. */
  lemma CrcLinear(a: seq<bool>, b: seq<bool>)
    requires |a| == |b|
    ensures Crc(XorBits(a, b)) == Xor(Crc(a), Crc(b))
  {
    StepsIsCrc(a);
    StepsIsCrc(b);
    StepsIsCrc(XorBits(a, b));
    hide Crc, Xor, XorBits;
    XorZero(0);
    StepsLinear(0, 0, a, b);
  }

  function XorBytes(a: seq<bv8>, b: seq<bv8>): (c: seq<bv8>)
    requires |a| == |b|
    ensures |c| == |a|
  {
    seq(|a|, i requires 0 <= i < |a| => a[i] ^ b[i])
  }

  lemma FeedLinear(c: bv16, d: bv16, a: bv8, b: bv8)
    ensures Feed(Xor(c, d), a ^ b) == Xor(Feed(c, a), Feed(d, b))
  {
    WideLinear(a, b);
    hide Xor, Wide, Up8;
    XorExchange(c, d, Up8(Wide(a)), Up8(Wide(b)));
  }

  lemma WideLinear(a: bv8, b: bv8)
    ensures Up8(Wide(a ^ b)) == Xor(Up8(Wide(a)), Up8(Wide(b)))
  {
  }

  /** Linearity of the firmware's CRC on messages of bytes. */
  lemma {:induction false} FastCrcLinear(a: seq<bv8>, b: seq<bv8>)
    requires |a| == |b|
    ensures FastCrc(XorBytes(a, b)) == Xor(FastCrc(a), FastCrc(b))
  {
    hide Xor, FastByte, Fast, Feed, TimesXTo;
    if a == [] {
      XorZero(0);
    } else {
      var n := |a| - 1;
      var c, d := FastCrc(a[..n]), FastCrc(b[..n]);
      FastCrcLinear(a[..n], b[..n]);
      assert XorBytes(a, b)[..n] == XorBytes(a[..n], b[..n]);
      FastByteLinear(c, d, a[n], b[n]);
    }
  }

  lemma FastByteLinear(c: bv16, d: bv16, a: bv8, b: bv8)
    ensures FastByte(Xor(c, d), a ^ b) == Xor(FastByte(c, a), FastByte(d, b))
  {
    hide Xor, FastByte, Fast, Feed, TimesXTo;
    FastByteIsFast(c, a);
    FastByteIsFast(d, b);
    FastByteIsFast(Xor(c, d), a ^ b);
    FeedLinear(c, d, a, b);
    FastIsEightSteps(Feed(c, a));
    FastIsEightSteps(Feed(d, b));
    FastIsEightSteps(Xor(Feed(c, a), Feed(d, b)));
    TimesXToLinear(Feed(c, a), Feed(d, b), 8);
  }

  // ----- bursts

  /** The register bits that n message bits cannot have reached. */
  function Above(n: nat): bv16 {
    if n == 0 then 0xFFFF else Shl(Above(n - 1))
  }

  function Shl(r: bv16): bv16 { r << 1 }

  function Meet(a: bv16, b: bv16): bv16 { a & b }

  lemma AboveTop(n: nat)
    requires n <= 15
    ensures Meet(Above(n), 0x8000) == 0x8000
  {
    assert Above(4) == 0xFFF0;
    assert Above(8) == 0xFF00;
    assert Above(12) == 0xF000;
  }

  lemma TopUnreached(r: bv16, above: bv16)
    requires Meet(r, above) == 0 && Meet(above, 0x8000) == 0x8000
    ensures Meet(r, 0x8000) == 0
  {
    assert r & 0x8000 == r & (above & 0x8000) == (r & above) & 0x8000;
  }

  lemma DivideSmall(r: bv16, b: bool)
    requires Meet(r, 0x8000) == 0
    ensures Divide(r, b) == Xor(Shl(r), Low(b))
  {
  }

  lemma ShlMeets(r: bv16, above: bv16)
    requires Meet(r, above) == 0
    ensures Meet(Shl(r), Shl(above)) == 0
  {
    assert (r << 1) & (above << 1) == (r & above) << 1;
  }

  lemma LowMeets(above: bv16, b: bool)
    ensures Meet(Low(b), Shl(above)) == 0
  {
  }

  lemma XorMeets(a: bv16, b: bv16, m: bv16)
    requires Meet(a, m) == 0 && Meet(b, m) == 0
    ensures Meet(Xor(a, b), m) == 0
  {
    assert (a ^ b) & m == (a & m) ^ (b & m);
  }

  lemma {:induction false} RemainderSmall(u: seq<bool>)
    requires |u| <= 16
    ensures Meet(Remainder(u), Above(|u|)) == 0
  {
    hide Divide, Meet, Shl, Xor, Low;
    if u == [] {
      ZeroMeets(Above(0));
    } else {
      var n := |u| - 1;
      var r := Remainder(u[..n]);
      RemainderSmall(u[..n]);
      AboveTop(n);
      TopUnreached(r, Above(n));
      DivideSmall(r, u[n]);
      ShlMeets(r, Above(n));
      LowMeets(Above(n), u[n]);
      XorMeets(Shl(r), Low(u[n]), Shl(Above(n)));
    }
  }

  lemma ZeroMeets(m: bv16)
    ensures Meet(0, m) == 0
  {
  }

  lemma BringDownInjective(r: bv16, s: bv16, a: bool, b: bool)
    requires Meet(r, 0x8000) == 0 && Meet(s, 0x8000) == 0 && Xor(Shl(r), Low(a)) == Xor(Shl(s), Low(b))
    ensures r == s && a == b
  {
    LowestBit(r, a);
    LowestBit(s, b);
  }

  lemma LowestBit(r: bv16, b: bool)
    requires Meet(r, 0x8000) == 0
    ensures (Xor(Shl(r), Low(b)) & 1 == 1) == b && Xor(Shl(r), Low(b)) >> 1 == r
  {
  }

  /** Up to 16 bits are their own remainder, so different ones have different remainders. */
  lemma {:induction false} RemainderInjective(u: seq<bool>, v: seq<bool>)
    requires |u| == |v| <= 16 && Remainder(u) == Remainder(v)
    ensures u == v
  {
    hide Divide, Low, Shl, Xor, Meet;
    if u != [] {
      var n := |u| - 1;
      RemainderSmall(u[..n]);
      RemainderSmall(v[..n]);
      AboveTop(n);
      TopUnreached(Remainder(u[..n]), Above(n));
      TopUnreached(Remainder(v[..n]), Above(n));
      DivideSmall(Remainder(u[..n]), u[n]);
      DivideSmall(Remainder(v[..n]), v[n]);
      BringDownInjective(Remainder(u[..n]), Remainder(v[..n]), u[n], v[n]);
      RemainderInjective(u[..n], v[..n]);
    }
  }

  /** Two bit strings that differ only within 16 consecutive bits never have the same CRC. */
  lemma BurstDetected(pre: seq<bool>, u: seq<bool>, v: seq<bool>, post: seq<bool>)
    requires |u| == |v| <= 16 && u != v
    ensures Crc(pre + u + post) != Crc(pre + v + post)
  {
    hide *;
    if Crc(pre + u + post) == Crc(pre + v + post) {
      StepsIsCrc(pre + u + post);
      StepsIsCrc(pre + v + post);
      StepsConcat(0, pre + u, post);
      StepsConcat(0, pre + v, post);
      StepsInjective(Steps(0, pre + u), Steps(0, pre + v), post);
      StepsConcat(0, pre, u);
      StepsConcat(0, pre, v);
      SameWindow(Steps(0, pre), u, v);
    }
  }

  lemma SameWindow(c: bv16, u: seq<bool>, v: seq<bool>)
    requires |u| == |v| <= 16 && Steps(c, u) == Steps(c, v)
    ensures u == v
  {
    var zeros := Zeros(|u|);
    assert XorBits(zeros, u) == u && XorBits(zeros, v) == v;
    hide Steps, Xor, XorBits, Remainder;
    XorZero(c);
    StepsLinear(c, 0, zeros, u);
    StepsLinear(c, 0, zeros, v);
    XorCancels(Steps(0, u), Steps(0, v), Steps(c, zeros));
    StepsIsCrc(u);
    StepsIsCrc(v);
    DivideZeros(u, 16);
    DivideZeros(v, 16);
    TimesXToInjective(Remainder(u), Remainder(v), 16);
    RemainderInjective(u, v);
  }

  // ----- the same for messages of bytes

  lemma {:induction false} MessageBitsConcat(a: seq<bv8>, b: seq<bv8>)
    ensures MessageBits(a + b) == MessageBits(a) + MessageBits(b)
  {
    hide ByteBits;
    if b == [] {
      assert a + b == a;
    } else {
      MessageBitsConcat(a, b[..|b| - 1]);
      assert (a + b)[..|a + b| - 1] == a + b[..|b| - 1];
    }
  }

  lemma ByteBitsInjective(a: bv8, b: bv8)
    requires ByteBits(a) == ByteBits(b)
    ensures a == b
  {
    forall k: nat | k < 8 ensures BitOf(a, k) == BitOf(b, k) {
      LeadingBit(a, k, 8);
      LeadingBit(b, k, 8);
    }
    EightBits(a, b);
  }

  lemma {:induction false} LeadingBit(a: bv8, k: nat, n: nat)
    requires k < n <= 8
    ensures LeadingBits(a, n)[k] == BitOf(a, k)
  {
    if k < n - 1 { LeadingBit(a, k, n - 1); }
  }

  lemma EightBits(a: bv8, b: bv8)
    requires forall k: nat :: k < 8 ==> BitOf(a, k) == BitOf(b, k)
    ensures a == b
  {
    assert BitOf(a, 0) == BitOf(b, 0) && BitOf(a, 1) == BitOf(b, 1) && BitOf(a, 2) == BitOf(b, 2);
    assert BitOf(a, 3) == BitOf(b, 3) && BitOf(a, 4) == BitOf(b, 4) && BitOf(a, 5) == BitOf(b, 5);
    assert BitOf(a, 6) == BitOf(b, 6) && BitOf(a, 7) == BitOf(b, 7);
  }

  /** Messages that differ only within two adjacent bytes have different CRCs, however long they are. */
  lemma TwoBytesDetected(pre: seq<bv8>, a: bv8, b: bv8, c: bv8, d: bv8, post: seq<bv8>)
    requires (a, b) != (c, d)
    ensures FastCrc(pre + [a, b] + post) != FastCrc(pre + [c, d] + post)
  {
    FastCrcIsDivision(pre + [a, b] + post);
    FastCrcIsDivision(pre + [c, d] + post);
    MessageBitsConcat(pre + [a, b], post);
    MessageBitsConcat(pre + [c, d], post);
    MessageBitsConcat(pre, [a, b]);
    MessageBitsConcat(pre, [c, d]);
    TwoByteBits(a, b, c, d);
    hide *;
    BurstDetected(MessageBits(pre), MessageBits([a, b]), MessageBits([c, d]), MessageBits(post));
  }

  lemma TwoByteBits(a: bv8, b: bv8, c: bv8, d: bv8)
    ensures |MessageBits([a, b])| == |MessageBits([c, d])| == 16
    ensures MessageBits([a, b]) == MessageBits([c, d]) ==> a == c && b == d
  {
    hide LeadingBits;
    PairBits(a, b);
    PairBits(c, d);
    if MessageBits([a, b]) == MessageBits([c, d]) {
      assert ByteBits(a) == MessageBits([a, b])[..8] && ByteBits(b) == MessageBits([a, b])[8..];
      assert ByteBits(c) == MessageBits([c, d])[..8] && ByteBits(d) == MessageBits([c, d])[8..];
      ByteBitsInjective(a, c);
      ByteBitsInjective(b, d);
    }
  }

  lemma PairBits(a: bv8, b: bv8)
    ensures MessageBits([a, b]) == ByteBits(a) + ByteBits(b)
  {
    hide ByteBits;
    assert [a, b][..1] == [a];
    assert [a][..0] == [];
    assert MessageBits([a]) == ByteBits(a);
  }

  // ----- the check word

  /** A message followed by its own CRC, high byte first, has the CRC zero. */
  lemma CheckWord(msg: seq<bv8>)
    ensures var c := FastCrc(msg); FastCrc(msg + [HighByte(c), LowByte(c)]) == 0
  {
    var c := FastCrc(msg);
    var h, l := HighByte(c), LowByte(c);
    var m1, m2 := msg + [h], msg + [h, l];
    assert m2[..|m2| - 1] == m1 && m1[..|m1| - 1] == msg;
    hide FastByte, HighByte, LowByte;
    CheckBytes(c);
    assert FastCrc(m1) == FastByte(c, h);
    assert FastCrc(m2) == FastByte(FastCrc(m1), l);
  }

  lemma CheckBytes(c: bv16)
    ensures FastByte(FastByte(c, HighByte(c)), LowByte(c)) == 0
  {
    var d := Feed(c, HighByte(c));
    FedHigh(c);
    FastByteIsFast(c, HighByte(c));
    FastLow(d);
    FastByteIsFast(d << 8, LowByte(c));
    FedLow(c, d);
    FastLow(0);
  }

  lemma FedHigh(c: bv16)
    ensures Feed(c, HighByte(c)) == c & 0xFF && Feed(c, HighByte(c)) & 0xFF00 == 0
  {
  }

  lemma FedLow(c: bv16, d: bv16)
    requires d == c & 0xFF
    ensures Feed(d << 8, LowByte(c)) == 0 && (0 as bv16) << 8 == 0
  {
  }
}
