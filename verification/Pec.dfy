/**
 The stitch decoder for PEC data: variable-length offsets, colour stops and the end mark. A byte's bits are
 spelled as quotients and remainders.
 */
module Pec {
  import opened StitchRing

  type Byte = b: int | 0 <= b < 256

  type Bytes = seq<Byte>

  const STOP: Byte := 0xFE
  const END: Byte := 0xFF

  // ----- the format

  /** A stitch with its offset in tenths and the form of each coordinate, or a colour stop with its two unused
      bytes. */
  datatype Item =
    | Offset(kind: Kind, dx: int, dy: int, longX: bool, longY: bool)
    | ColorStop(a: Byte, b: Byte)

  predicate InForm(v: int, long: bool) {
    if long then -2048 <= v < 2048 else -64 <= v < 64
  }

  /** The short form has no room for flags: a trim or a jump needs one long coordinate. */
  predicate Encodable(i: Item) {
    i.Offset? ==>
      && InForm(i.dx, i.longX) && InForm(i.dy, i.longY)
      && (i.kind == Normal || ((i.kind == Trim || i.kind == Jump) && (i.longX || i.longY)))
  }

  function Flags(k: Kind): nat {
    match k
    case Trim => 0x20
    case Jump => 0x10
    case _ => 0
  }

  /** A coordinate in two's complement: 7 bits, or 12 bits behind the mark and the flags. */
  function Coordinate(v: int, long: bool, k: Kind): Bytes
    requires InForm(v, long)
  {
    if long then [0x80 + Flags(k) + (v % 4096) / 256, (v % 4096) % 256] else [v % 128]
  }

  function Encoding(i: Item): Bytes
    requires Encodable(i)
  {
    match i
    case Offset(kind, dx, dy, longX, longY) => Coordinate(dx, longX, kind) + Coordinate(dy, longY, kind)
    case ColorStop(a, b) => [STOP, a, b]
  }

  predicate AllEncodable(items: seq<Item>) {
    forall i :: 0 <= i < |items| ==> Encodable(items[i])
  }

  function Encode(items: seq<Item>): Bytes
    requires AllEncodable(items)
  {
    if items == [] then [END] else Encoding(items[0]) + Encode(items[1..])
  }

  /** What the reader should return: offsets in millimetres with y turned round, and the colours of the palette
      in turn, each kept until the next stop. */
  function Meaning(palette: nat -> Byte, items: seq<Item>, color: nat, index: nat): seq<Stitch>
  {
    if items == [] then []
    else
      match items[0]
      case Offset(kind, dx, dy, _, _) =>
        [Stitch(kind, color, dx as real / 10.0, -dy as real / 10.0)] + Meaning(palette, items[1..], color, index)
      case ColorStop(_, _) =>
        [Stitch(Stop, palette(index + 1), 0.0, 0.0)] + Meaning(palette, items[1..], palette(index + 1), index + 1)
  }

  // ----- the decoder as a function

  /** A read of one byte; behind the end of the file the byte keeps its value. */
  function Fetch(rest: Bytes, c: Byte): (Byte, Bytes) {
    if rest == [] then (c, rest) else (rest[0], rest[1..])
  }

  function KindOf(c: Byte): Kind {
    if (c / 32) % 2 == 1 then Trim else if (c / 16) % 2 == 1 then Jump else Normal
  }

  function Short(c: Byte): int {
    if c > 0x3F then c - 0x80 else c
  }

  function Long(high: Byte, low: Byte): int {
    var v := (high % 16) * 256 + low;
    if v > 0x7FF then v - 0x1000 else v
  }

  /** A coordinate whose first byte has been read: the kind, the value, and the byte and file behind it. */
  datatype Parsed = Parsed(kind: Kind, value: int, last: Byte, rest: Bytes)

  function Parse(c: Byte, rest: Bytes, kind: Kind): Parsed {
    if c >= 0x80 then
      var (low, rest1) := Fetch(rest, c);
      Parsed(KindOf(c), Long(c, low), low, rest1)
    else Parsed(kind, Short(c), c, rest)
  }

  /** The reader's state: the rest of the file, the first colour while it is to be announced, the colour index. */
  datatype Reader = Reader(rest: Bytes, first: int, index: nat)

  datatype Result = Result(more: bool, stitch: Stitch, reader: Reader)

  predicate ColorOrNone(c: int) {
    -1 <= c < 256
  }

  /** One call; `stale` is the uninitialised byte a read behind the end leaves. */
  function GetStitch(palette: nat -> Byte, r: Reader, st: Stitch, stale: Byte): Result
    requires ColorOrNone(r.first)
  {
    if r.first != -1 then Result(true, Stitch(Stop, r.first, 0.0, 0.0), r.(first := -1))
    else
      var (c, rest) := Fetch(r.rest, stale);
      if c == END then Result(false, st.(kind := Normal), r.(rest := rest))
      else if c == STOP then
        var (c1, rest1) := Fetch(rest, c);
        var (_, rest2) := Fetch(rest1, c1);
        Result(true, Stitch(Stop, palette(r.index + 1), 0.0, 0.0), r.(rest := rest2, index := r.index + 1))
      else
        var x := Parse(c, rest, Normal);
        var (d, rest1) := Fetch(x.rest, x.last);
        var y := Parse(d, rest1, x.kind);
        Result(true, st.(kind := y.kind, x := x.value as real / 10.0, y := -y.value as real / 10.0),
               r.(rest := y.rest))
  }

  // ----- records byte by byte

  /** 0xFF ends the stitches, 0xFE and two more bytes are a colour stop. */
  lemma MarkBytes(palette: nat -> Byte, r: Reader, st: Stitch, stale: Byte)
    requires r.first == -1 && |r.rest| >= 3
    ensures var g := GetStitch(palette, r, st, stale);
      && (r.rest[0] == 0xFF <==> !g.more)
      && (r.rest[0] == 0xFF ==> g.reader == r.(rest := r.rest[1..]))
      && (r.rest[0] == 0xFE ==> g.stitch == Stitch(Stop, palette(r.index + 1), 0.0, 0.0)
                                && g.reader == Reader(r.rest[3..], -1, r.index + 1))
  {
  }

  /** A signed number of so many values. */
  function Signed(v: int, values: int): int {
    if 2 * v >= values then v - values else v
  }

  /** Two bytes below 0x80 are a stitch; its offsets are their signed 7-bit values in tenths, y turned round. */
  lemma ShortBytes(palette: nat -> Byte, r: Reader, st: Stitch, stale: Byte)
    requires r.first == -1 && |r.rest| >= 2 && r.rest[0] < 0x80 && r.rest[1] < 0x80
    ensures var g := GetStitch(palette, r, st, stale);
      && g.more && g.reader == r.(rest := r.rest[2..])
      && g.stitch == Stitch(Normal, st.color, Signed(r.rest[0], 128) as real / 10.0,
                            -Signed(r.rest[1], 128) as real / 10.0)
  {
  }

  /** Two pairs that begin at 0x80 to 0xBF are signed 12-bit offsets; of the flags of the second pair, 0x20 is a trim,
      otherwise 0x10 a jump. */
  lemma LongBytes(palette: nat -> Byte, r: Reader, st: Stitch, stale: Byte, f: nat, g: nat)
    requires r.first == -1 && |r.rest| >= 4 && f < 4 && g < 4
    requires 0x80 + 0x10 * f <= r.rest[0] < 0x90 + 0x10 * f && 0x80 + 0x10 * g <= r.rest[2] < 0x90 + 0x10 * g
    ensures var a := GetStitch(palette, r, st, stale);
      var dx := Signed((r.rest[0] - 0x80 - 0x10 * f) * 256 + r.rest[1], 4096);
      var dy := Signed((r.rest[2] - 0x80 - 0x10 * g) * 256 + r.rest[3], 4096);
      && a.more && a.reader == r.(rest := r.rest[4..])
      && a.stitch == Stitch(if g >= 2 then Trim else if g == 1 then Jump else Normal, st.color,
                            dx as real / 10.0, -dy as real / 10.0)
  {
    HighByte(r.rest[0], f);
    HighByte(r.rest[2], g);
    hide KindOf;
    assert r.rest[1..][1..][1..][1..] == r.rest[4..];
  }

  lemma HighByte(c: Byte, f: nat)
    requires f < 4 && 0x80 + 0x10 * f <= c < 0x90 + 0x10 * f
    ensures c % 16 == c - 0x80 - 0x10 * f
    ensures KindOf(c) == if f >= 2 then Trim else if f == 1 then Jump else Normal
  {
  }

  // ----- decoding inverts encoding

  /** A coordinate is read back from its encoding, whatever follows. */
  lemma ParseCoordinate(v: int, long: bool, k: Kind, was: Kind, rest: Bytes)
    requires InForm(v, long) && (k == Normal || k == Trim || k == Jump)
    ensures var e := Coordinate(v, long, k) + rest;
      && e != [] && e[0] < STOP && (e[0] >= 0x80 <==> long)
      && Parse(e[0], e[1..], was) == Parsed(if long then k else was, v, Coordinate(v, long, k)[if long then 1 else 0], rest)
  {
    if long {
      LongForm(v, k);
      assert (Coordinate(v, long, k) + rest)[2..] == rest;
    } else {
      ShortForm(v);
      assert (Coordinate(v, long, k) + rest)[1..] == rest;
    }
  }

  lemma ShortForm(v: int)
    requires -64 <= v < 64
    ensures v % 128 < 0x80 && Short(v % 128) == v
  {
  }

  lemma LongForm(v: int, k: Kind)
    requires -2048 <= v < 2048 && (k == Normal || k == Trim || k == Jump)
    ensures var high := 0x80 + Flags(k) + (v % 4096) / 256;
      0x80 <= high < STOP && KindOf(high) == k && Long(high, (v % 4096) % 256) == v
  {
    hide KindOf, Long;
    LongKind((v % 4096) / 256, k);
    LongValue(v % 4096, k);
  }

  lemma LongKind(h: int, k: Kind)
    requires 0 <= h < 16 && (k == Normal || k == Trim || k == Jump)
    ensures KindOf(0x80 + Flags(k) + h) == k
  {
  }

  lemma LongValue(u: int, k: Kind)
    requires 0 <= u < 4096 && (k == Normal || k == Trim || k == Jump)
    ensures Long(0x80 + Flags(k) + u / 256, u % 256) == if u > 0x7FF then u - 0x1000 else u
  {
    assert (0x80 + Flags(k) + u / 256) % 16 == u / 256;
  }

  /** An encoded item is decoded to its meaning, and the reader stands behind it. */
  lemma DecodesItem(palette: nat -> Byte, i: Item, tail: Bytes, index: nat, st: Stitch, stale: Byte)
    requires Encodable(i)
    ensures var g := GetStitch(palette, Reader(Encoding(i) + tail, -1, index), st, stale);
      && g.more && [g.stitch] == Meaning(palette, [i], st.color, index)
      && g.reader == Reader(tail, -1, if i.ColorStop? then index + 1 else index)
  {
    assert [i][1..] == [];
    match i
    case Offset(kind, dx, dy, longX, longY) =>
      hide Coordinate, Parse;
      var ys := Coordinate(dy, longY, kind) + tail;
      assert Encoding(i) + tail == Coordinate(dx, longX, kind) + ys;
      ParseCoordinate(dx, longX, kind, Normal, ys);
      ParseCoordinate(dy, longY, kind, if longX then kind else Normal, tail);
    case ColorStop(a, b) =>
      assert (Encoding(i) + tail)[3..] == tail;
  }

  /** Calls that all store into the same stitch return these stitches in turn and then the end, with the reader
      in front of `tail`. */
  predicate Yields(palette: nat -> Byte, r: Reader, st: Stitch, stale: Byte, sts: seq<Stitch>, tail: Bytes)
    requires ColorOrNone(r.first)
    decreases |sts|
  {
    var g := GetStitch(palette, r, st, stale);
    if sts == [] then !g.more && g.reader.rest == tail
    else g.more && g.stitch == sts[0] && Yields(palette, g.reader, g.stitch, stale, sts[1..], tail)
  }

  lemma YieldsNext(palette: nat -> Byte, r: Reader, st: Stitch, stale: Byte, sts: seq<Stitch>, tail: Bytes)
    requires ColorOrNone(r.first) && sts != []
    requires var g := GetStitch(palette, r, st, stale);
      g.more && g.stitch == sts[0] && Yields(palette, g.reader, g.stitch, stale, sts[1..], tail)
    ensures Yields(palette, r, st, stale, sts, tail)
  {
  }

  lemma MeaningNext(palette: nat -> Byte, items: seq<Item>, color: nat, index: nat)
    requires items != []
    ensures var m := Meaning(palette, [items[0]], color, index);
      && |m| == 1
      && Meaning(palette, items, color, index)
         == m + Meaning(palette, items[1..], m[0].color, if items[0].ColorStop? then index + 1 else index)
  {
    assert [items[0]][1..] == [];
  }

  lemma {:induction false} DecodesItems(palette: nat -> Byte, items: seq<Item>, tail: Bytes, index: nat,
                                          st: Stitch, stale: Byte)
    requires AllEncodable(items)
    ensures Yields(palette, Reader(Encode(items) + tail, -1, index), st, stale,
                   Meaning(palette, items, st.color, index), tail)
    decreases |items|
  {
    hide Encoding, GetStitch, Yields, Meaning;
    var r := Reader(Encode(items) + tail, -1, index);
    if items == [] {
      AtEnd(palette, r, st, stale, tail);
    } else {
      var rest := Encode(items[1..]) + tail;
      assert Encode(items) + tail == Encoding(items[0]) + rest;
      DecodesItem(palette, items[0], rest, index, st, stale);
      var g := GetStitch(palette, r, st, stale);
      MeaningNext(palette, items, st.color, index);
      DecodesItems(palette, items[1..], tail, g.reader.index, g.stitch, stale);
      YieldsNext(palette, r, st, stale, Meaning(palette, items, st.color, index), tail);
    }
  }

  lemma AtEnd(palette: nat -> Byte, r: Reader, st: Stitch, stale: Byte, tail: Bytes)
    requires r.first == -1 && r.rest == [END] + tail
    ensures Yields(palette, r, st, stale, Meaning(palette, [], st.color, r.index), tail)
  {
  }

  /** The round trip: a file opened with the first colour to announce yields a stop with that colour, then the
      encoded stitches and colour stops, then the end. */
  lemma RoundTrip(palette: nat -> Byte, items: seq<Item>, tail: Bytes, st: Stitch, stale: Byte)
    requires AllEncodable(items)
    ensures Yields(palette, Reader(Encode(items) + tail, palette(0), 0), st, stale,
                   [Stitch(Stop, palette(0), 0.0, 0.0)] + Meaning(palette, items, palette(0), 0), tail)
  {
    hide Encode, Meaning;
    var r, sts := Reader(Encode(items) + tail, palette(0), 0), Meaning(palette, items, palette(0), 0);
    var first := Stitch(Stop, palette(0), 0.0, 0.0);
    DecodesItems(palette, items, tail, 0, first, stale);
    assert ([first] + sts)[1..] == sts;
    YieldsNext(palette, r, st, stale, [first] + sts, tail);
  }

  // ----- what the meaning is

  function Stops(items: seq<Item>): nat {
    if items == [] then 0 else Stops(items[..|items| - 1]) + if items[|items| - 1].ColorStop? then 1 else 0
  }

  lemma {:induction false} StopsFirst(items: seq<Item>)
    requires items != []
    ensures Stops(items) == Stops(items[1..]) + if items[0].ColorStop? then 1 else 0
  {
    if |items| == 1 {
      assert items[..0] == [] && items[1..] == [];
    } else {
      StopsFirst(items[..|items| - 1]);
      assert items[..|items| - 1][1..] == items[1..][..|items| - 2];
    }
  }

  /** Every item has its stitch: an offset keeps kind and values and carries the colour of the stops before it, the
      n-th colour stop selects entry n of the palette. */
  lemma {:induction false} MeaningAt(palette: nat -> Byte, items: seq<Item>, index: nat, i: nat)
    requires i < |items|
    ensures var m := Meaning(palette, items, palette(index), index);
      && |m| == |items|
      && m[i].color == palette(index + Stops(items[..i + 1]))
      && match items[i]
         case ColorStop(_, _) => m[i].kind == Stop && m[i].x == m[i].y == 0.0
         case Offset(kind, dx, dy, _, _) => m[i].kind == kind && m[i].x == dx as real / 10.0 && m[i].y == -dy as real / 10.0
    decreases |items|
  {
    var next := if items[0].ColorStop? then index + 1 else index;
    StopsFirst(items[..i + 1]);
    if i > 0 {
      assert items[..i + 1][1..] == items[1..][..i];
      MeaningAt(palette, items[1..], next, i - 1);
    } else {
      assert items[..1][1..] == [];
      MeaningLength(palette, items[1..], palette(next), next);
    }
  }

  lemma MeaningLength(palette: nat -> Byte, items: seq<Item>, color: nat, index: nat)
    ensures |Meaning(palette, items, color, index)| == |items|
  {
  }
}
