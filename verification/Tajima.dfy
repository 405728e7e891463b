/**
 The stitch decoder for Tajima DST data: three bytes a stitch, the offsets in balanced ternary, one bit for each
 signed power of three.
 */
module Tajima {
  import opened StitchRing

  // ----- bits

  function Bit(k: nat): (r: bv8)
    requires k < 8
  {
    1 << k
  }

  predicate Has(b: bv8, k: nat)
    requires k < 8
  {
    b & Bit(k) != 0
  }

  function When(p: bool, k: nat): bv8
    requires k < 8
  {
    if p then Bit(k) else 0
  }

  /** The byte with these bits, the lowest first. */
  function Pack(p0: bool, p1: bool, p2: bool, p3: bool, p4: bool, p5: bool, p6: bool, p7: bool): bv8 {
    When(p0, 0) | When(p1, 1) | When(p2, 2) | When(p3, 3) | When(p4, 4) | When(p5, 5) | When(p6, 6) | When(p7, 7)
  }

  /** The masks of the eight bits. */
  lemma HasMask(b: bv8)
    ensures Has(b, 0) == (b & 0x01 != 0) && Has(b, 1) == (b & 0x02 != 0)
    ensures Has(b, 2) == (b & 0x04 != 0) && Has(b, 3) == (b & 0x08 != 0)
    ensures Has(b, 4) == (b & 0x10 != 0) && Has(b, 5) == (b & 0x20 != 0)
    ensures Has(b, 6) == (b & 0x40 != 0) && Has(b, 7) == (b & 0x80 != 0)
  {
  }

  lemma PackBits(p0: bool, p1: bool, p2: bool, p3: bool, p4: bool, p5: bool, p6: bool, p7: bool)
    ensures var b := Pack(p0, p1, p2, p3, p4, p5, p6, p7);
      && Has(b, 0) == p0 && Has(b, 1) == p1 && Has(b, 2) == p2 && Has(b, 3) == p3
      && Has(b, 4) == p4 && Has(b, 5) == p5 && Has(b, 6) == p6 && Has(b, 7) == p7
  {
  }

  lemma PackOfBits(b: bv8)
    ensures Pack(Has(b, 0), Has(b, 1), Has(b, 2), Has(b, 3), Has(b, 4), Has(b, 5), Has(b, 6), Has(b, 7)) == b
  {
  }

  // ----- balanced ternary

  /** The digits for 81, 27, 9, 3 and 1, each -1, 0 or 1. */
  datatype Digits = Digits(d81: int, d27: int, d9: int, d3: int, d1: int)

  predicate Digit(d: int) {
    -1 <= d <= 1
  }

  predicate Balanced(d: Digits) {
    Digit(d.d81) && Digit(d.d27) && Digit(d.d9) && Digit(d.d3) && Digit(d.d1)
  }

  function Value(d: Digits): int {
    81 * d.d81 + 27 * d.d27 + 9 * d.d9 + 3 * d.d3 + d.d1
  }

  /** The leading digit of a number, where the lower digits reach up to `half`. */
  function Lead(v: int, half: int): (d: int)
    ensures Digit(d)
  {
    if v > half then 1 else if v < -half then -1 else 0
  }

  function Ternary(v: int): Digits {
    var d81 := Lead(v, 40);
    var d27 := Lead(v - 81 * d81, 13);
    var d9 := Lead(v - 81 * d81 - 27 * d27, 4);
    var d3 := Lead(v - 81 * d81 - 27 * d27 - 9 * d9, 1);
    Digits(d81, d27, d9, d3, v - 81 * d81 - 27 * d27 - 9 * d9 - 3 * d3)
  }

  predicate InRange(v: int) {
    -121 <= v <= 121
  }

  /** The leading digit is the one that leaves a remainder the lower digits can reach. */
  lemma LeadExact(v: int, half: int, weight: int, d: int)
    requires (half, weight) in [(40, 81), (13, 27), (4, 9), (1, 3)] && Digit(d)
    ensures -half - weight <= v <= half + weight ==> -half <= v - weight * Lead(v, half) <= half
    ensures -half <= v - weight * d <= half ==> d == Lead(v, half)
  {
  }

  /** Every offset in range has exactly one balanced form. */
  lemma TernaryExact(v: int, d: Digits)
    requires Balanced(d)
    ensures InRange(v) ==> Balanced(Ternary(v)) && Value(Ternary(v)) == v
    ensures InRange(Value(d)) && (Value(d) == v <==> InRange(v) && d == Ternary(v))
  {
    hide Lead;
    var v3 := v - 81 * Lead(v, 40);
    var v2 := v3 - 27 * Lead(v3, 13);
    var v1 := v2 - 9 * Lead(v2, 4);
    LeadExact(v, 40, 81, d.d81);
    LeadExact(v3, 13, 27, d.d27);
    LeadExact(v2, 4, 9, d.d9);
    LeadExact(v1, 1, 3, d.d3);
    assert Digit(Lead(v, 40)) && Digit(Lead(v3, 13)) && Digit(Lead(v2, 4)) && Digit(Lead(v1, 1));
  }

  // ----- records

  datatype Record = Record(b0: bv8, b1: bv8, b2: bv8)

  datatype Item = Item(kind: Kind, dx: int, dy: int)

  predicate Encodable(i: Item) {
    (i.kind == Normal || i.kind == Jump || i.kind == Stop) && InRange(i.dx) && InRange(i.dy)
  }

  function Spread(x: Digits, y: Digits, k: Kind): Record {
    Record(
      Pack(x.d1 == 1, x.d1 == -1, x.d9 == 1, x.d9 == -1, y.d9 == -1, y.d9 == 1, y.d1 == -1, y.d1 == 1),
      Pack(x.d3 == 1, x.d3 == -1, x.d27 == 1, x.d27 == -1, y.d27 == -1, y.d27 == 1, y.d3 == -1, y.d3 == 1),
      Pack(true, true, x.d81 == 1, x.d81 == -1, y.d81 == -1, y.d81 == 1, k == Stop, k != Normal)
    )
  }

  function Encoding(i: Item): Record {
    Spread(Ternary(i.dx), Ternary(i.dy), i.kind)
  }

  function Sign(up: bool, down: bool): (d: int)
    ensures Digit(d)
  {
    (if up then 1 else 0) - (if down then 1 else 0)
  }

  function XDigits(r: Record): Digits {
    Digits(Sign(Has(r.b2, 2), Has(r.b2, 3)), Sign(Has(r.b1, 2), Has(r.b1, 3)), Sign(Has(r.b0, 2), Has(r.b0, 3)),
           Sign(Has(r.b1, 0), Has(r.b1, 1)), Sign(Has(r.b0, 0), Has(r.b0, 1)))
  }

  function YDigits(r: Record): Digits {
    Digits(Sign(Has(r.b2, 5), Has(r.b2, 4)), Sign(Has(r.b1, 5), Has(r.b1, 4)), Sign(Has(r.b0, 5), Has(r.b0, 4)),
           Sign(Has(r.b1, 7), Has(r.b1, 6)), Sign(Has(r.b0, 7), Has(r.b0, 6)))
  }

  method Weigh(sum: int, up: bool, down: bool, weight: int) returns (r: int)
    ensures r == sum + weight * Sign(up, down)
  {
    r := sum;
    if up {
      r := r + weight;
    }
    if down {
      r := r - weight;
    }
  }

  /** The offsets of a record: a power of three is added or subtracted for every bit. */
  method GetX(b2: bv8, b1: bv8, b0: bv8) returns (x: int)
    ensures x == Value(XDigits(Record(b0, b1, b2)))
    ensures x == Adds(b2, 0x04, 81) + Adds(b2, 0x08, -81) + Adds(b1, 0x04, 27) + Adds(b1, 0x08, -27)
                 + Adds(b0, 0x04, 9) + Adds(b0, 0x08, -9) + Adds(b1, 0x01, 3) + Adds(b1, 0x02, -3)
                 + Adds(b0, 0x01, 1) + Adds(b0, 0x02, -1)
  {
    OffsetsByBit(Record(b0, b1, b2));
    hide Has, Sign, Adds;
    x := Weigh(0, Has(b2, 2), Has(b2, 3), 81);
    x := Weigh(x, Has(b1, 2), Has(b1, 3), 27);
    x := Weigh(x, Has(b0, 2), Has(b0, 3), 9);
    x := Weigh(x, Has(b1, 0), Has(b1, 1), 3);
    x := Weigh(x, Has(b0, 0), Has(b0, 1), 1);
  }

  method GetY(b2: bv8, b1: bv8, b0: bv8) returns (y: int)
    ensures y == Value(YDigits(Record(b0, b1, b2)))
    ensures y == Adds(b2, 0x20, 81) + Adds(b2, 0x10, -81) + Adds(b1, 0x20, 27) + Adds(b1, 0x10, -27)
                 + Adds(b0, 0x20, 9) + Adds(b0, 0x10, -9) + Adds(b1, 0x80, 3) + Adds(b1, 0x40, -3)
                 + Adds(b0, 0x80, 1) + Adds(b0, 0x40, -1)
  {
    OffsetsByBit(Record(b0, b1, b2));
    hide Has, Sign, Adds;
    y := Weigh(0, Has(b2, 5), Has(b2, 4), 81);
    y := Weigh(y, Has(b1, 5), Has(b1, 4), 27);
    y := Weigh(y, Has(b0, 5), Has(b0, 4), 9);
    y := Weigh(y, Has(b1, 7), Has(b1, 6), 3);
    y := Weigh(y, Has(b0, 7), Has(b0, 6), 1);
  }

  /** What a bit adds to an offset. */
  function Adds(b: bv8, mask: bv8, weight: int): int {
    if b & mask != 0 then weight else 0
  }

  /** The offsets spelled out bit by bit. */
  lemma OffsetsByBit(r: Record)
    ensures Value(XDigits(r))
      == Adds(r.b2, 0x04, 81) + Adds(r.b2, 0x08, -81) + Adds(r.b1, 0x04, 27) + Adds(r.b1, 0x08, -27)
         + Adds(r.b0, 0x04, 9) + Adds(r.b0, 0x08, -9) + Adds(r.b1, 0x01, 3) + Adds(r.b1, 0x02, -3)
         + Adds(r.b0, 0x01, 1) + Adds(r.b0, 0x02, -1)
    ensures Value(YDigits(r))
      == Adds(r.b2, 0x20, 81) + Adds(r.b2, 0x10, -81) + Adds(r.b1, 0x20, 27) + Adds(r.b1, 0x10, -27)
         + Adds(r.b0, 0x20, 9) + Adds(r.b0, 0x10, -9) + Adds(r.b1, 0x80, 3) + Adds(r.b1, 0x40, -3)
         + Adds(r.b0, 0x80, 1) + Adds(r.b0, 0x40, -1)
  {
    hide Has, Sign, Adds;
    Weighed23(r.b2, 81);
    Weighed23(r.b1, 27);
    Weighed23(r.b0, 9);
    Weighed01(r.b1, 3);
    Weighed01(r.b0, 1);
    Weighed54(r.b2, 81);
    Weighed54(r.b1, 27);
    Weighed54(r.b0, 9);
    Weighed76(r.b1, 3);
    Weighed76(r.b0, 1);
  }

  lemma Weighed01(b: bv8, w: int)
    ensures w * Sign(Has(b, 0), Has(b, 1)) == Adds(b, 0x01, w) + Adds(b, 0x02, -w)
  {
    HasMask(b);
    hide Has;
  }

  lemma Weighed23(b: bv8, w: int)
    ensures w * Sign(Has(b, 2), Has(b, 3)) == Adds(b, 0x04, w) + Adds(b, 0x08, -w)
  {
    HasMask(b);
    hide Has;
  }

  lemma Weighed54(b: bv8, w: int)
    ensures w * Sign(Has(b, 5), Has(b, 4)) == Adds(b, 0x20, w) + Adds(b, 0x10, -w)
  {
    HasMask(b);
    hide Has;
  }

  lemma Weighed76(b: bv8, w: int)
    ensures w * Sign(Has(b, 7), Has(b, 6)) == Adds(b, 0x80, w) + Adds(b, 0x40, -w)
  {
    HasMask(b);
    hide Has;
  }

  // ----- the control bits

  predicate IsEnd(b2: bv8) {
    b2 & 0xF3 == 0xF3
  }

  /** The kind that the control bits select; `was` stays where they only toggle the sequin mode. */
  function KindOf(b2: bv8, was: Kind): Kind {
    if b2 & 0xC3 == 0xC3 then Stop
    else if b2 & 0x43 == 0x43 then was
    else if b2 & 0x83 == 0x83 then Jump
    else Normal
  }

  lemma Masks(b: bv8)
    ensures IsEnd(b) <==> Has(b, 0) && Has(b, 1) && Has(b, 4) && Has(b, 5) && Has(b, 6) && Has(b, 7)
    ensures b & 0xC3 == 0xC3 <==> Has(b, 0) && Has(b, 1) && Has(b, 6) && Has(b, 7)
    ensures b & 0x43 == 0x43 <==> Has(b, 0) && Has(b, 1) && Has(b, 6)
    ensures b & 0x83 == 0x83 <==> Has(b, 0) && Has(b, 1) && Has(b, 7)
  {
  }

  /** The kind by its bits: a stop has the four control bits, a jump all but bit 6, a sequin toggle all but bit 7, a
      stitch anything else; the end has bits 4 and 5 as well as the control bits of a stop. */
  lemma KindByBits(b: bv8, was: Kind)
    ensures var low, six, seven := b & 0x01 != 0 && b & 0x02 != 0, b & 0x40 != 0, b & 0x80 != 0;
      && KindOf(b, was) == (if !low then Normal else if six && seven then Stop else if six then was
                            else if seven then Jump else Normal)
      && IsEnd(b) == (low && six && seven && b & 0x10 != 0 && b & 0x20 != 0)
  {
  }

  lemma SignOf(d: int)
    requires Digit(d)
    ensures Sign(d == 1, d == -1) == d
  {
  }

  /** Offsets and kind are read back from a spread record, none disturbed by the others. */
  lemma SpreadDigits(x: Digits, y: Digits, k: Kind)
    requires Balanced(x) && Balanced(y)
    ensures XDigits(Spread(x, y, k)) == x && YDigits(Spread(x, y, k)) == y
  {
    hide Has, Pack;
    PackBits(x.d1 == 1, x.d1 == -1, x.d9 == 1, x.d9 == -1, y.d9 == -1, y.d9 == 1, y.d1 == -1, y.d1 == 1);
    PackBits(x.d3 == 1, x.d3 == -1, x.d27 == 1, x.d27 == -1, y.d27 == -1, y.d27 == 1, y.d3 == -1, y.d3 == 1);
    PackBits(true, true, x.d81 == 1, x.d81 == -1, y.d81 == -1, y.d81 == 1, k == Stop, k != Normal);
  }

  lemma SpreadKind(x: Digits, y: Digits, k: Kind, was: Kind)
    requires k == Normal || k == Jump || k == Stop
    ensures !IsEnd(Spread(x, y, k).b2) && KindOf(Spread(x, y, k).b2, was) == k
  {
    hide Has, Pack, IsEnd;
    PackBits(true, true, x.d81 == 1, x.d81 == -1, y.d81 == -1, y.d81 == 1, k == Stop, k != Normal);
    Masks(Spread(x, y, k).b2);
  }

  /** A record that an encoder writes: no power of three is both added and subtracted, and the control bits are
      those of a stitch, a jump or a stop. */
  predicate Canonical(r: Record) {
    && !(Has(r.b0, 0) && Has(r.b0, 1)) && !(Has(r.b0, 2) && Has(r.b0, 3))
    && !(Has(r.b0, 4) && Has(r.b0, 5)) && !(Has(r.b0, 6) && Has(r.b0, 7))
    && !(Has(r.b1, 0) && Has(r.b1, 1)) && !(Has(r.b1, 2) && Has(r.b1, 3))
    && !(Has(r.b1, 4) && Has(r.b1, 5)) && !(Has(r.b1, 6) && Has(r.b1, 7))
    && !(Has(r.b2, 2) && Has(r.b2, 3)) && !(Has(r.b2, 4) && Has(r.b2, 5))
    && Has(r.b2, 0) && Has(r.b2, 1) && (Has(r.b2, 6) ==> Has(r.b2, 7))
  }

  /** The item a record stands for. */
  function Decoding(r: Record, was: Kind): Item {
    Item(KindOf(r.b2, was), Value(XDigits(r)), Value(YDigits(r)))
  }

  lemma DigitsBalanced(r: Record)
    ensures Balanced(XDigits(r)) && Balanced(YDigits(r))
  {
    hide Has, Sign;
  }

  /** Encoding and decoding are inverse to each other: an item comes back from its record, and a canonical record
      from its item. */
  lemma EncodingInverse(i: Item, was: Kind)
    requires Encodable(i)
    ensures !IsEnd(Encoding(i).b2) && Decoding(Encoding(i), was) == i
  {
    hide Spread, IsEnd, KindOf, XDigits, YDigits, Ternary, Value, Balanced;
    BalancedZero();
    TernaryExact(i.dx, Digits(0, 0, 0, 0, 0));
    TernaryExact(i.dy, Digits(0, 0, 0, 0, 0));
    SpreadDigits(Ternary(i.dx), Ternary(i.dy), i.kind);
    SpreadKind(Ternary(i.dx), Ternary(i.dy), i.kind, was);
  }

  lemma BalancedZero()
    ensures Balanced(Digits(0, 0, 0, 0, 0))
  {
  }

  lemma DecodingInverse(r: Record, was: Kind)
    requires Canonical(r)
    ensures Encodable(Decoding(r, was)) && Encoding(Decoding(r, was)) == r
  {
    hide Spread, Value, Ternary, Balanced, XDigits, YDigits, Has, KindOf, Canonical, InRange;
    DigitsBalanced(r);
    TernaryExact(Value(XDigits(r)), XDigits(r));
    TernaryExact(Value(YDigits(r)), YDigits(r));
    CanonicalKind(r, was);
    SpreadOfDigits(r, KindOf(r.b2, was));
  }

  lemma CanonicalKind(r: Record, was: Kind)
    requires Canonical(r)
    ensures var k := KindOf(r.b2, was);
      && (k == Normal || k == Jump || k == Stop)
      && (k == Stop <==> Has(r.b2, 6)) && (k != Normal <==> Has(r.b2, 7))
  {
    hide Has;
    Masks(r.b2);
  }

  lemma SpreadOfDigits(r: Record, k: Kind)
    requires Canonical(r) && (k == Stop <==> Has(r.b2, 6)) && (k != Normal <==> Has(r.b2, 7))
    ensures Spread(XDigits(r), YDigits(r), k) == r
  {
    hide Has, Pack;
    PackOfBits(r.b0);
    PackOfBits(r.b1);
    PackOfBits(r.b2);
  }

  // ----- the decoder as a function

  type Bytes = seq<bv8>

  datatype Result = Result(more: bool, stitch: Stitch, rest: Bytes, first: int)

  /** One call: a record, or the end at the end mark or where less than a record is left. */
  function GetStitch(rest: Bytes, first: int, st: Stitch): (g: Result)
    requires first >= -1
    ensures g.first == -1
  {
    if first != -1 then Result(true, st.(kind := Stop, color := first), rest, -1)
    else if |rest| < 3 then Result(false, st, [], first)
    else
      var r := Record(rest[0], rest[1], rest[2]);
      if IsEnd(r.b2) then Result(false, st, rest[3..], first)
      else
        var i := Decoding(r, st.kind);
        Result(true, st.(kind := i.kind, x := i.dx as real / 10.0, y := i.dy as real / 10.0), rest[3..], first)
  }

  function Bytewise(r: Record): Bytes {
    [r.b0, r.b1, r.b2]
  }

  predicate AllEncodable(items: seq<Item>) {
    forall i :: 0 <= i < |items| ==> Encodable(items[i])
  }

  const END: Record := Record(0, 0, 0xF3)

  function Encode(items: seq<Item>): Bytes {
    if items == [] then Bytewise(END) else Bytewise(Encoding(items[0])) + Encode(items[1..])
  }

  function Meaning(i: Item, color: nat): Stitch {
    Stitch(i.kind, color, i.dx as real / 10.0, i.dy as real / 10.0)
  }

  /** Calls that all store into the same stitch return these stitches in turn and then the end, with the file in
      front of `tail`. */
  predicate Yields(rest: Bytes, st: Stitch, sts: seq<Stitch>, tail: Bytes)
    decreases |sts|
  {
    var g := GetStitch(rest, -1, st);
    if sts == [] then !g.more && g.rest == tail
    else g.more && g.stitch == sts[0] && Yields(g.rest, g.stitch, sts[1..], tail)
  }

  lemma DecodesItem(i: Item, tail: Bytes, st: Stitch)
    requires Encodable(i)
    ensures GetStitch(Bytewise(Encoding(i)) + tail, -1, st) == Result(true, Meaning(i, st.color), tail, -1)
  {
    hide Encoding, Decoding, IsEnd;
    EncodingInverse(i, st.kind);
    var r, bytes := Encoding(i), Bytewise(Encoding(i)) + tail;
    assert bytes[0] == r.b0 && bytes[1] == r.b1 && bytes[2] == r.b2 && bytes[3..] == tail;
  }

  lemma EndEnds(tail: Bytes, st: Stitch)
    ensures GetStitch(Bytewise(END) + tail, -1, st) == Result(false, st, tail, -1)
  {
    assert IsEnd(END.b2);
    assert (Bytewise(END) + tail)[3..] == tail;
  }

  function Meanings(items: seq<Item>, color: nat): seq<Stitch> {
    seq(|items|, i requires 0 <= i < |items| => Meaning(items[i], color))
  }

  /** The round trip: stitches, jumps and stops are read back in order with their offsets, no stop is taken for the
      end, and the end is found. */
  lemma {:induction false} RoundTrip(items: seq<Item>, tail: Bytes, st: Stitch)
    requires AllEncodable(items)
    ensures Yields(Encode(items) + tail, st, Meanings(items, st.color), tail)
    decreases |items|
  {
    hide Encoding, GetStitch, Bytewise;
    if items == [] {
      EndEnds(tail, st);
    } else {
      var rest := Encode(items[1..]) + tail;
      assert Encode(items) + tail == Bytewise(Encoding(items[0])) + rest;
      DecodesItem(items[0], rest, st);
      RoundTrip(items[1..], tail, Meaning(items[0], st.color));
      assert Meanings(items, st.color)[1..] == Meanings(items[1..], st.color);
    }
  }

  /** The sequin mode is forgotten between calls: no call makes a stitch a sequin. */
  lemma NeverSequin(rest: Bytes, first: int, st: Stitch)
    requires first >= -1
    ensures GetStitch(rest, first, st).stitch.kind == SequinEject ==> st.kind == SequinEject
  {
    hide IsEnd, Value, XDigits, YDigits;
  }
}
