/**
 The Modbus CRC, the checksum of every block in non-volatile storage, and the 8-bit checksum.
 */
module CrcModbus {
  import opened Words

  const POLY: bv16 := 0xA001

  /** One shift of the register: right, with the reflected generator subtracted when a bit falls out. */
  function Shift(r: bv16): bv16 {
    if r & 1 != 0 then (r >> 1) ^ POLY else r >> 1
  }

  function Shifts(r: bv16, n: nat): bv16 {
    if n == 0 then r else Shift(Shifts(r, n - 1))
  }

  function ModbusByte(crc: bv16, b: bv8): bv16 {
    Shifts(Xor(crc, Wide(b)), 8)
  }

  function Modbus(msg: seq<bv8>): bv16 {
    if msg == [] then 0xFFFF else ModbusByte(Modbus(msg[..|msg| - 1]), msg[|msg| - 1])
  }

  method ModbusCrc16x(buf: array<bv8>, len: nat) returns (crc: bv16)
    requires len <= buf.Length
    ensures crc == Modbus(buf[..len])
  {
    hide Shift;
    crc := 0xFFFF;
    var k := 0;
    while k < len
      invariant 0 <= k <= len && crc == Modbus(buf[..k])
    {
      ghost var before := crc;
      crc := crc ^ (buf[k] as bv16);
      var i := 8;
      while i != 0
        invariant 0 <= i <= 8
        invariant crc == Shifts(Xor(before, Wide(buf[k])), 8 - i)
      {
        ShiftLiteral(crc);
        if crc & 0x0001 != 0 {
          crc := crc >> 1;
          crc := crc ^ 0xA001;
        } else {
          crc := crc >> 1;
        }
        i := i - 1;
      }
      assert buf[..k + 1][..k] == buf[..k];
      k := k + 1;
    }
  }

  lemma ShiftLiteral(r: bv16)
    ensures Shift(r) == if r & 0x0001 != 0 then (r >> 1) ^ 0xA001 else r >> 1
  {
  }

  // ----- the register shift is linear and can be undone

  lemma ShiftLinear(a: bv16, b: bv16)
    ensures Shift(Xor(a, b)) == Xor(Shift(a), Shift(b))
  {
    HalfXor(a, b);
    LowXor(a, b);
    ShiftCases(a);
    ShiftCases(b);
    ShiftCases(Xor(a, b));
    hide Shift, Xor, Half, Odd;
    XorAssociates(Half(a), Half(b), POLY);
    XorMiddle(Half(a), Half(b), POLY);
    XorPairs(Half(a), Half(b), POLY);
  }

  function Half(r: bv16): bv16 { r >> 1 }

  function Odd(r: bv16): bool { r & 1 != 0 }

  lemma ShiftCases(r: bv16)
    ensures Shift(r) == if Odd(r) then Xor(Half(r), POLY) else Half(r)
  {
  }

  lemma HalfXor(a: bv16, b: bv16)
    ensures Half(Xor(a, b)) == Xor(Half(a), Half(b))
  {
  }

  lemma LowXor(a: bv16, b: bv16)
    ensures Odd(Xor(a, b)) == (Odd(a) != Odd(b))
  {
  }

  lemma {:induction false} ShiftsLinear(a: bv16, b: bv16, n: nat)
    ensures Shifts(Xor(a, b), n) == Xor(Shifts(a, n), Shifts(b, n))
  {
    hide Shift, Xor;
    if n > 0 {
      ShiftsLinear(a, b, n - 1);
      ShiftLinear(Shifts(a, n - 1), Shifts(b, n - 1));
    }
  }

  function Unshift(r: bv16): bv16 {
    if r & 0x8000 != 0 then ((r ^ POLY) << 1) ^ 1 else r << 1
  }

  lemma UnshiftUndoes(r: bv16)
    ensures Unshift(Shift(r)) == r
  {
    if r & 1 != 0 {
      TopOfOdd(r >> 1);
      TwiceXor(r >> 1);
      RestoreLow(r);
    } else {
      EvenBack(r);
    }
  }

  lemma TopOfOdd(h: bv16)
    requires h & 0x8000 == 0
    ensures (h ^ POLY) & 0x8000 != 0
  {
  }

  lemma TwiceXor(h: bv16)
    ensures (h ^ POLY) ^ POLY == h
  {
  }

  lemma RestoreLow(r: bv16)
    requires r & 1 != 0
    ensures ((r >> 1) << 1) ^ 1 == r
  {
  }

  lemma EvenBack(r: bv16)
    requires r & 1 == 0
    ensures (r >> 1) & 0x8000 == 0 && (r >> 1) << 1 == r
  {
  }

  lemma {:induction false} ShiftsInjective(a: bv16, b: bv16, n: nat)
    requires Shifts(a, n) == Shifts(b, n)
    ensures a == b
  {
    hide Shift, Unshift;
    if n > 0 {
      UnshiftUndoes(Shifts(a, n - 1));
      UnshiftUndoes(Shifts(b, n - 1));
      ShiftsInjective(a, b, n - 1);
    }
  }

  // ----- detection

  lemma {:induction false} ModbusConcat(a: seq<bv8>, b: seq<bv8>)
    ensures Modbus(a + b) == Feed(Modbus(a), b)
  {
    hide ModbusByte;
    if b == [] {
      assert a + b == a;
    } else {
      ModbusConcat(a, b[..|b| - 1]);
      assert (a + b)[..|a + b| - 1] == a + b[..|b| - 1];
    }
  }

  /** The register after the bytes of a message, starting from any value. */
  function Feed(crc: bv16, msg: seq<bv8>): bv16 {
    if msg == [] then crc else ModbusByte(Feed(crc, msg[..|msg| - 1]), msg[|msg| - 1])
  }

  lemma {:induction false} FeedInjective(a: bv16, b: bv16, msg: seq<bv8>)
    requires Feed(a, msg) == Feed(b, msg)
    ensures a == b
  {
    hide Shifts, Xor, Wide;
    if msg != [] {
      var front, last := msg[..|msg| - 1], msg[|msg| - 1];
      ShiftsInjective(Xor(Feed(a, front), Wide(last)), Xor(Feed(b, front), Wide(last)), 8);
      XorCancels(Feed(a, front), Feed(b, front), Wide(last));
      FeedInjective(a, b, front);
    }
  }

  lemma Unroll8(r: bv16)
    ensures Shifts(r, 8) == Shift(Shift(Shift(Shift(Shift(Shift(Shift(Shift(r))))))))
  {
    hide Shift;
    assert Shifts(r, 1) == Shift(Shifts(r, 0));
    assert Shifts(r, 2) == Shift(Shift(r));
    assert Shifts(r, 4) == Shift(Shift(Shifts(r, 2)));
    assert Shifts(r, 6) == Shift(Shift(Shifts(r, 4)));
  }

  /** Eight shifts of a nonzero byte always reach the upper half of the register. */
  lemma ByteReachesUp(e: bv16)
    requires e & 0xFF00 == 0 && Shifts(e, 8) & 0xFF00 == 0
    ensures e == 0
  {
    Unroll8(e);
    var r := Shift(Shift(Shift(Shift(Shift(Shift(Shift(Shift(e))))))));
    assert r & 0xFF00 == 0 ==> e == 0;
  }

  lemma SecondByteCannotMend(x: bv16, y: bv16, b: bv8, d: bv8)
    requires Xor(x, Wide(b)) == Xor(y, Wide(d))
    ensures Xor(x, y) & 0xFF00 == 0
  {
  }

  lemma ByteDifference(a: bv8, c: bv8)
    ensures Xor(Wide(a), Wide(c)) & 0xFF00 == 0
    ensures Xor(Wide(a), Wide(c)) == 0 ==> a == c
  {
  }

  lemma TwoBytesInjective(r: bv16, a: bv8, b: bv8, c: bv8, d: bv8)
    requires ModbusByte(ModbusByte(r, a), b) == ModbusByte(ModbusByte(r, c), d)
    ensures a == c && b == d
  {
    hide Shifts, Xor, Wide;
    var x, y := ModbusByte(r, a), ModbusByte(r, c);
    ShiftsInjective(Xor(x, Wide(b)), Xor(y, Wide(d)), 8);
    SecondByteCannotMend(x, y, b, d);
    ShiftsLinear(Xor(r, Wide(a)), Xor(r, Wide(c)), 8);
    XorPairs(Wide(a), Wide(c), r);
    ByteDifference(a, c);
    ByteReachesUp(Xor(Wide(a), Wide(c)));
    XorCancels(Wide(b), Wide(d), x);
    WideInjective(b, d);
  }

  lemma WideInjective(b: bv8, d: bv8)
    requires Wide(b) == Wide(d)
    ensures b == d
  {
  }

  /** Messages that differ only within two adjacent bytes have different CRCs, however long they are. */
  lemma TwoBytesDetected(pre: seq<bv8>, a: bv8, b: bv8, c: bv8, d: bv8, post: seq<bv8>)
    requires (a, b) != (c, d)
    ensures Modbus(pre + [a, b] + post) != Modbus(pre + [c, d] + post)
  {
    hide ModbusByte;
    if Modbus(pre + [a, b] + post) == Modbus(pre + [c, d] + post) {
      ModbusConcat(pre + [a, b], post);
      ModbusConcat(pre + [c, d], post);
      FeedInjective(Modbus(pre + [a, b]), Modbus(pre + [c, d]), post);
      TwoMore(pre, a, b);
      TwoMore(pre, c, d);
      TwoBytesInjective(Modbus(pre), a, b, c, d);
    }
  }

  lemma TwoMore(msg: seq<bv8>, a: bv8, b: bv8)
    ensures Modbus(msg + [a, b]) == ModbusByte(ModbusByte(Modbus(msg), a), b)
  {
    hide ModbusByte;
    var m1, m2 := msg + [a], msg + [a, b];
    assert m2[..|m2| - 1] == m1 && m1[..|m1| - 1] == msg;
  }

  // ----- the check word

  lemma HighHalfFallsDown(r: bv16)
    requires r & 0xFF == 0
    ensures Shifts(r, 8) == r >> 8
  {
    Unroll8(r);
  }

  lemma CheckHalves(c: bv16)
    ensures Xor(c, Wide(LowByte(c))) & 0xFF == 0
    ensures Xor(Xor(c, Wide(LowByte(c))) >> 8, Wide(HighByte(c))) == 0
    ensures (0 as bv16) >> 8 == 0 && (0 as bv16) & 0xFF == 0
  {
  }

  /** A message followed by its own CRC, low byte first, has the CRC zero. */
  lemma CheckWord(msg: seq<bv8>)
    ensures var c := Modbus(msg); Modbus(msg + [LowByte(c), HighByte(c)]) == 0
  {
    var c := Modbus(msg);
    TwoMore(msg, LowByte(c), HighByte(c));
    CheckHalves(c);
    HighHalfFallsDown(Xor(c, Wide(LowByte(c))));
    HighHalfFallsDown(0);
    hide Xor, Wide, LowByte, HighByte, Shifts;
  }

  // ----- the check value

  lemma OneMore(msg: seq<bv8>, k: nat)
    requires k < |msg|
    ensures Modbus(msg[..k + 1]) == ModbusByte(Modbus(msg[..k]), msg[k])
  {
    assert msg[..k + 1][..k] == msg[..k];
  }

  lemma CheckBytes1()
    ensures ModbusByte(0xFFFF, 0x31) == 0x947E
    ensures ModbusByte(0x947E, 0x32) == 0xF595
    ensures ModbusByte(0xF595, 0x33) == 0x7A75
  {
    Unroll8(Xor(0xFFFF, Wide(0x31)));
    Unroll8(Xor(0x947E, Wide(0x32)));
    Unroll8(Xor(0xF595, Wide(0x33)));
  }

  lemma CheckBytes2()
    ensures ModbusByte(0x7A75, 0x34) == 0x30BA
    ensures ModbusByte(0x30BA, 0x35) == 0xA471
    ensures ModbusByte(0xA471, 0x36) == 0x32E4
  {
    Unroll8(Xor(0x7A75, Wide(0x34)));
    Unroll8(Xor(0x30BA, Wide(0x35)));
    Unroll8(Xor(0xA471, Wide(0x36)));
  }

  lemma CheckBytes3()
    ensures ModbusByte(0x32E4, 0x37) == 0x9D73
    ensures ModbusByte(0x9D73, 0x38) == 0x37DD
    ensures ModbusByte(0x37DD, 0x39) == 0x4B37
  {
    Unroll8(Xor(0x32E4, Wide(0x37)));
    Unroll8(Xor(0x9D73, Wide(0x38)));
    Unroll8(Xor(0x37DD, Wide(0x39)));
  }

  /** The published check value of the Modbus CRC: that of the digits 1 to 9 is 0x4B37. */
  lemma CheckValue()
    ensures Modbus([0x31, 0x32, 0x33, 0x34, 0x35, 0x36, 0x37, 0x38, 0x39]) == 0x4B37
  {
    CheckBytes1();
    CheckBytes2();
    CheckBytes3();
    hide ModbusByte;
    var m: seq<bv8> := [0x31, 0x32, 0x33, 0x34, 0x35, 0x36, 0x37, 0x38, 0x39];
    assert m[..0] == [] && m[..9] == m;
    OneMore(m, 0);
    OneMore(m, 1);
    OneMore(m, 2);
    OneMore(m, 3);
    OneMore(m, 4);
    OneMore(m, 5);
    OneMore(m, 6);
    OneMore(m, 7);
    OneMore(m, 8);
  }

  // ----- the 8-bit checksum

  function Rotated(c: bv8): bv8 { (c << 1) | (c >> 7) }

  /** Every bit moves up one place and the top bit comes in at the bottom. */
  lemma RotatedBits(c: bv8)
    ensures Rotated(c) & 0x01 != 0 <==> c & 0x80 != 0
    ensures Rotated(c) & 0x02 != 0 <==> c & 0x01 != 0
    ensures Rotated(c) & 0x04 != 0 <==> c & 0x02 != 0
    ensures Rotated(c) & 0x08 != 0 <==> c & 0x04 != 0
    ensures Rotated(c) & 0x10 != 0 <==> c & 0x08 != 0
    ensures Rotated(c) & 0x20 != 0 <==> c & 0x10 != 0
    ensures Rotated(c) & 0x40 != 0 <==> c & 0x20 != 0
    ensures Rotated(c) & 0x80 != 0 <==> c & 0x40 != 0
  {
  }

  function Checksum8(msg: seq<bv8>): bv8 {
    if msg == [] then 0 else Rotated(Checksum8(msg[..|msg| - 1])) + msg[|msg| - 1]
  }

  /** Two bytes: the first has been rotated once when the second is added, so their order matters. */
  lemma Checksum8Pair(a: bv8, b: bv8)
    ensures Checksum8([a]) == a
    ensures Checksum8([a, b]) == ((a << 1) | (a >> 7)) + b
  {
    assert [a][..0] == [] && [a, b][..1] == [a];
  }

  method GrblCrc8(buf: array<bv8>, size: nat) returns (checksum: bv8)
    requires size <= buf.Length
    ensures checksum == Checksum8(buf[..size])
  {
    checksum := 0;
    var k := 0;
    while k < size
      invariant 0 <= k <= size && checksum == Checksum8(buf[..k])
    {
      checksum := (checksum << 1) | (checksum >> 7);
      checksum := checksum + buf[k];
      assert buf[..k + 1][..k] == buf[..k];
      k := k + 1;
    }
  }

  lemma RotateAddInjective(a: bv8, b: bv8, x: bv8, y: bv8)
    requires Rotated(a) + x == Rotated(b) + y
    ensures x == y ==> a == b
    ensures a == b ==> x == y
  {
  }

  /** A change of any single byte changes the 8-bit checksum. */
  lemma {:induction false} OneByteDetected8(pre: seq<bv8>, a: bv8, b: bv8, post: seq<bv8>)
    requires a != b
    ensures Checksum8(pre + [a] + post) != Checksum8(pre + [b] + post)
  {
    hide Rotated;
    var u, v := pre + [a] + post, pre + [b] + post;
    if post == [] {
      assert u[..|u| - 1] == pre && v[..|v| - 1] == pre;
      if Checksum8(u) == Checksum8(v) {
        RotateAddInjective(Checksum8(pre), Checksum8(pre), a, b);
      }
    } else {
      var front, last := post[..|post| - 1], post[|post| - 1];
      assert u[..|u| - 1] == pre + [a] + front && v[..|v| - 1] == pre + [b] + front;
      OneByteDetected8(pre, a, b, front);
      if Checksum8(u) == Checksum8(v) {
        RotateAddInjective(Checksum8(pre + [a] + front), Checksum8(pre + [b] + front), last, last);
      }
    }
  }
}
