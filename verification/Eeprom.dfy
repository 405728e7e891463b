/**
 The I2C EEPROM drivers: page-split writes with a trailing checksum, chunked reads.
 */
module Eeprom {
  import CrcModbus
  import Words

  // ----- memory as a value

  /** Memory with data copied to address dest. */
  function Flat(mem: seq<bv8>, dest: nat, data: seq<bv8>): (r: seq<bv8>)
    requires dest + |data| <= |mem|
    ensures |r| == |mem|
  {
    mem[..dest] + data + mem[dest + |data|..]
  }

  predicate PageSize(page: nat) {
    page == 16 || page == 32 || page == 64
  }

  /** The device's next address: it stays inside the page. */
  function NextInPage(a: nat, page: nat): nat
    requires PageSize(page)
  {
    if (a + 1) % page == 0 then a + 1 - page else a + 1
  }

  /** What one write transfer does inside the device. */
  function PageWrite(mem: seq<bv8>, page: nat, addr: nat, data: seq<bv8>): (r: seq<bv8>)
    requires PageSize(page) && addr < |mem| && |mem| % page == 0
    ensures |r| == |mem|
    decreases |data|
  {
    if data == [] then mem
    else
      NextInRange(addr, page, |mem|);
      PageWrite(mem[addr := data[0]], page, NextInPage(addr, page), data[1..])
  }

  lemma NextInRange(a: nat, page: nat, size: nat)
    requires PageSize(page) && a < size && size % page == 0
    ensures 0 <= NextInPage(a, page) < size
  {
    if page == 16 { assert a + 1 != size || (a + 1) % 16 == 0; }
    else if page == 32 { assert a + 1 != size || (a + 1) % 32 == 0; }
    else { assert a + 1 != size || (a + 1) % 64 == 0; }
  }

  lemma NextSamePage(a: nat, page: nat)
    requires PageSize(page)
    ensures 0 <= NextInPage(a, page) && NextInPage(a, page) / page == a / page
  {
    if page == 16 { NextSamePage16(a); }
    else if page == 32 { NextSamePage32(a); }
    else { NextSamePage64(a); }
  }

  lemma NextSamePage16(a: nat)
    ensures 0 <= NextInPage(a, 16) && NextInPage(a, 16) / 16 == a / 16
  {
  }

  lemma NextSamePage32(a: nat)
    ensures 0 <= NextInPage(a, 32) && NextInPage(a, 32) / 32 == a / 32
  {
  }

  lemma NextSamePage64(a: nat)
    ensures 0 <= NextInPage(a, 64) && NextInPage(a, 64) / 64 == a / 64
  {
  }

  /** Whatever a transfer holds, it changes no cell of another page. */
  lemma {:induction false} StaysInPage(mem: seq<bv8>, page: nat, addr: nat, data: seq<bv8>, i: nat)
    requires PageSize(page) && addr < |mem| && |mem| % page == 0
    requires i < |mem| && i / page != addr / page
    ensures PageWrite(mem, page, addr, data)[i] == mem[i]
    decreases |data|
  {
    if data != [] {
      hide NextInPage, PageSize;
      NextInRange(addr, page, |mem|);
      NextSamePage(addr, page);
      StaysInPage(mem[addr := data[0]], page, NextInPage(addr, page), data[1..], i);
    }
  }

  /** A transfer that stays inside its page is a plain copy. */
  lemma {:induction false} InPageIsFlat(mem: seq<bv8>, page: nat, addr: nat, data: seq<bv8>)
    requires PageSize(page) && addr < |mem| && |mem| % page == 0
    requires addr % page + |data| <= page && addr + |data| <= |mem|
    ensures PageWrite(mem, page, addr, data) == Flat(mem, addr, data)
    decreases |data|
  {
    if data == [] {
    } else if |data| == 1 {
      assert data[1..] == [];
      NextInRange(addr, page, |mem|);
      assert mem[addr := data[0]] == Flat(mem, addr, data);
    } else {
      SamePage(addr, page);
      var mem1 := mem[addr := data[0]];
      InPageIsFlat(mem1, page, addr + 1, data[1..]);
      assert Flat(mem1, addr + 1, data[1..]) == Flat(mem, addr, data);
    }
  }

  lemma SamePage(a: nat, page: nat)
    requires PageSize(page) && a % page + 1 < page
    ensures (a + 1) % page == a % page + 1
  {
    if page == 16 { SamePage16(a); }
    else if page == 32 { SamePage32(a); }
    else { SamePage64(a); }
  }

  lemma SamePage16(a: nat)
    requires a % 16 + 1 < 16
    ensures (a + 1) % 16 == a % 16 + 1
  {
  }

  lemma SamePage32(a: nat)
    requires a % 32 + 1 < 32
    ensures (a + 1) % 32 == a % 32 + 1
  {
  }

  lemma SamePage64(a: nat)
    requires a % 64 + 1 < 64
    ensures (a + 1) % 64 == a % 64 + 1
  {
  }

  lemma {:induction false} FlatSteps(mem: seq<bv8>, dest: nat, a: seq<bv8>, b: seq<bv8>)
    requires dest + |a| + |b| <= |mem|
    ensures Flat(Flat(mem, dest, a), dest + |a|, b) == Flat(mem, dest, a + b)
  {
  }

  // ----- the wire address

  const I2C_ADDRESS: bv8 := 0x50

  /** The address as sent: with one word address byte, three of its bits go into the device address. */
  datatype Wire = Wire(device: bv8, word: nat)

  function Encode(twoBytes: bool, addr: nat): Wire
    requires !twoBytes ==> addr < 2048
  {
    if twoBytes then Wire(I2C_ADDRESS, addr % 0x1_0000)
    else Wire(I2C_ADDRESS | ((addr / 256) as bv8), addr % 256)
  }

  /** The cell the device selects. */
  function Decode(twoBytes: bool, w: Wire): nat {
    if twoBytes then w.word else ((w.device & 7) as nat) * 256 + w.word
  }

  lemma BlockBits(hi: nat)
    requires hi < 8
    ensures ((I2C_ADDRESS | (hi as bv8)) & 7) as nat == hi
    ensures (I2C_ADDRESS | (hi as bv8)) & 0xF8 == 0x50
  {
    if hi == 0 { assert (0x50 | 0) & 7 == 0 as bv8 && (0x50 | 0) & 0xF8 == 0x50 as bv8; }
    else if hi == 1 { assert (0x50 | 1) & 7 == 1 as bv8 && (0x50 | 1) & 0xF8 == 0x50 as bv8; }
    else if hi == 2 { assert (0x50 | 2) & 7 == 2 as bv8 && (0x50 | 2) & 0xF8 == 0x50 as bv8; }
    else if hi == 3 { assert (0x50 | 3) & 7 == 3 as bv8 && (0x50 | 3) & 0xF8 == 0x50 as bv8; }
    else if hi == 4 { assert (0x50 | 4) & 7 == 4 as bv8 && (0x50 | 4) & 0xF8 == 0x50 as bv8; }
    else if hi == 5 { assert (0x50 | 5) & 7 == 5 as bv8 && (0x50 | 5) & 0xF8 == 0x50 as bv8; }
    else if hi == 6 { assert (0x50 | 6) & 7 == 6 as bv8 && (0x50 | 6) & 0xF8 == 0x50 as bv8; }
    else { assert (0x50 | 7) & 7 == 7 as bv8 && (0x50 | 7) & 0xF8 == 0x50 as bv8; }
  }

  /** The bits on the wire: the device answers to 1010 and the three upper address bits, or to 1010000. */
  lemma WireBits(addr: nat)
    ensures addr < 2048 ==>
      var w := Encode(false, addr); w.device & 0xF8 == 0x50 && (w.device & 7) as nat == addr / 256 && w.word == addr % 256
    ensures addr < 0x1_0000 ==> Encode(true, addr) == Wire(0x50, addr)
  {
    if addr < 2048 {
      BlockBits(addr / 256);
    }
  }

  /** The split address selects the cell it was made from. */
  lemma EncodeFaithful(twoBytes: bool, addr: nat)
    requires addr < if twoBytes then 0x1_0000 else 2048
    ensures Decode(twoBytes, Encode(twoBytes, addr)) == addr
  {
    if !twoBytes {
      BlockBits(addr / 256);
    }
  }

  // ----- the device

  function ReadAt(mem: seq<bv8>, addr: nat, n: nat): (r: seq<bv8>)
    requires addr < |mem| && n <= |mem|
    ensures |r| == n
  {
    if addr + n <= |mem| then mem[addr..addr + n] else mem[addr..] + mem[..addr + n - |mem|]
  }

  /** A read that runs over the end of the device goes on at its beginning. */
  lemma ReadWraps(mem: seq<bv8>, addr: nat, n: nat, i: nat)
    requires addr < |mem| && i < n <= |mem|
    ensures ReadAt(mem, addr, n)[i] == mem[if addr + i < |mem| then addr + i else addr + i - |mem|]
  {
  }

  lemma ReadInside(mem: seq<bv8>, addr: nat, n: nat)
    requires addr < |mem| && addr + n <= |mem|
    ensures ReadAt(mem, addr, n) == mem[addr..addr + n]
  {
  }

  /** A buffer that holds the cells read so far, and then the next chunk, holds them all. */
  lemma ChunksJoin(mem: seq<bv8>, source: nat, buffer: seq<bv8>, was: nat, target: nat)
    requires was <= target <= |buffer| && source + target <= |mem|
    requires buffer[..was] == mem[source..source + was]
    requires buffer[was..target] == mem[source + was..source + target]
    ensures buffer[..target] == mem[source..source + target]
  {
    assert buffer[..target] == buffer[..was] + buffer[was..target];
    assert mem[source..source + target] == mem[source..source + was] + mem[source + was..source + target];
  }

  class Chip {
    const page: nat
    const twoBytes: bool
    const mem: array<bv8>
    const faults: nat -> bool
    var ops: nat

    predicate Valid() {
      PageSize(page) && mem.Length > 0 && mem.Length % page == 0
      && mem.Length <= if twoBytes then 0x1_0000 else 2048
    }

    /** No transfer from number a up to number b fails. */
    ghost predicate Quiet(a: nat, b: nat) {
      forall k {:trigger faults(k)} :: a <= k < b ==> !faults(k)
    }

    /** One write transfer: the device stores the bytes inside one page. */
    method Write(w: Wire, data: seq<bv8>) returns (ok: bool)
      requires Valid() && Decode(twoBytes, w) < mem.Length
      modifies this`ops, mem
      ensures ops == old(ops) + 1 && ok == !faults(old(ops))
      ensures mem[..] == if ok then PageWrite(old(mem[..]), page, Decode(twoBytes, w), data) else old(mem[..])
    {
      ok := !faults(ops);
      ops := ops + 1;
      if ok {
        var addr: nat := Decode(twoBytes, w);
        var i := 0;
        while i < |data|
          modifies mem
          invariant 0 <= i <= |data| && addr < mem.Length
          invariant PageWrite(mem[..], page, addr, data[i..])
                    == PageWrite(old(mem[..]), page, Decode(twoBytes, w), data)
        {
          ghost var before, rest := mem[..], data[i..];
          mem[addr] := data[i];
          NextInRange(addr, page, mem.Length);
          assert mem[..] == before[addr := rest[0]] && data[i + 1..] == rest[1..];
          addr := NextInPage(addr, page);
          i := i + 1;
        }
      }
    }

    /** One read transfer; the address counter runs through the whole device. */
    method Read(w: Wire, n: nat) returns (ok: bool, data: seq<bv8>)
      requires Valid() && Decode(twoBytes, w) < mem.Length && n <= mem.Length
      modifies this`ops
      ensures ops == old(ops) + 1 && ok == !faults(old(ops))
      ensures data == ReadAt(mem[..], Decode(twoBytes, w), n)
    {
      ok := !faults(ops);
      ops := ops + 1;
      data := ReadAt(mem[..], Decode(twoBytes, w), n);
    }
  }

  // ----- the drivers

  /** The checksum of a block, low byte first. */
  function Checksum(data: seq<bv8>): (r: seq<bv8>)
    ensures |r| == 2
  {
    [Words.LowByte(CrcModbus.Modbus(data)), Words.HighByte(CrcModbus.Modbus(data))]
  }

  /** What a successful write of a block leaves at its address. */
  function Stored(data: seq<bv8>, withChecksum: bool): seq<bv8> {
    if withChecksum && data != [] then data + Checksum(data) else data
  }

  /** What a block read finds: the bytes, and whether the checksum behind them is theirs. */
  function Found(mem: seq<bv8>, source: nat, size: nat, withChecksum: bool): (seq<bv8>, bool)
    requires source + size + (if withChecksum then 2 else 0) <= |mem|
  {
    var data := mem[source..source + size];
    (data, withChecksum ==> mem[source + size..source + size + 2] == Checksum(data))
  }

  class Nvs {
    const chip: Chip
    var wire: Wire
    var count: nat

    constructor (chip: Chip)
      ensures this.chip == chip
    {
      this.chip := chip;
      wire, count := Wire(I2C_ADDRESS, 0), 0;
    }

    method PutByte(addr: nat, value: bv8)
      requires chip.Valid() && addr < chip.mem.Length
      modifies this, chip`ops, chip.mem
      ensures chip.ops == old(chip.ops) + 1
      ensures chip.mem[..] == if chip.faults(old(chip.ops)) then old(chip.mem[..])
                              else Flat(old(chip.mem[..]), addr, [value])
    {
      wire := Encode(chip.twoBytes, addr);
      count := 1;
      EncodeFaithful(chip.twoBytes, addr);
      OneInPage(addr, chip.page);
      InPageIsFlat(chip.mem[..], chip.page, addr, [value]);
      var _ := chip.Write(wire, [value]);
    }

    method GetByte(addr: nat) returns (value: bv8)
      requires chip.Valid() && addr < chip.mem.Length
      modifies this, chip`ops
      ensures chip.ops == old(chip.ops) + 1
      ensures value == if chip.faults(old(chip.ops)) then 0 else chip.mem[addr]
    {
      wire := Encode(chip.twoBytes, addr);
      count := 1;
      EncodeFaithful(chip.twoBytes, addr);
      var ok, data := chip.Read(wire, 1);
      value := if ok then data[0] else 0;
    }

    /** One transfer of bytes that lie in one page. */
    method WriteChunk(addr: nat, data: seq<bv8>) returns (ok: bool)
      requires chip.Valid() && data != [] && addr + |data| <= chip.mem.Length
      requires addr % chip.page + |data| <= chip.page
      modifies this, chip`ops, chip.mem
      ensures chip.ops == old(chip.ops) + 1 && ok == !chip.faults(old(chip.ops))
      ensures chip.mem[..] == if ok then Flat(old(chip.mem[..]), addr, data) else old(chip.mem[..])
    {
      wire := Encode(chip.twoBytes, addr);
      count := |data|;
      EncodeFaithful(chip.twoBytes, addr);
      InPageIsFlat(chip.mem[..], chip.page, addr, data);
      ok := chip.Write(wire, data);
    }

    /** The two checksum bytes. */
    method WriteChecksum(source: seq<bv8>, destination: nat)
      requires chip.Valid() && destination + 2 <= chip.mem.Length
      modifies this, chip`ops, chip.mem
      ensures chip.ops == old(chip.ops) + 2
      ensures chip.Quiet(old(chip.ops), chip.ops) ==>
        chip.mem[..] == Flat(old(chip.mem[..]), destination, Checksum(source))
      ensures SameOutside(old(chip.mem[..]), chip.mem[..], destination, 2)
    {
      hide Flat, Checksum;
      ghost var m0 := chip.mem[..];
      var low, high := Checksum(source)[0], Checksum(source)[1];
      PutByte(destination, low);
      ghost var m1 := chip.mem[..];
      PutByte(destination + 1, high);
      FlatSteps(m0, destination, [low], [high]);
      assert [low] + [high] == Checksum(source);
      FlatOutside(m0, destination, [low]);
      FlatOutside(m1, destination + 1, [high]);
    }

    /** The bytes of a transfer: no more than remain, none behind the end of the page. */
    function Count(destination: nat, remaining: nat): (n: nat)
      requires chip.Valid() && remaining > 0
      ensures 0 < n <= remaining && destination % chip.page + n <= chip.page
      ensures n < remaining ==> destination % chip.page + n == chip.page
    {
      var n := chip.page - destination % chip.page;
      if remaining < n then remaining else n
    }

    /** The page loop of a block write, which stops at the first failed transfer; `kept` counts the bytes
        that reached the device, `next` is the address behind the last transfer tried. */
    method WritePages(dest: nat, source: seq<bv8>) returns (res: bool, next: nat, ghost kept: nat)
      requires chip.Valid() && dest + |source| <= chip.mem.Length
      modifies this, chip`ops, chip.mem
      ensures old(chip.ops) <= chip.ops
      ensures chip.Quiet(old(chip.ops), chip.ops) ==> res
      ensures kept <= |source| && res == (kept == |source|)
      ensures dest + kept <= next <= dest + |source| && (res ==> next == dest + |source|)
      ensures chip.mem[..] == Flat(old(chip.mem[..]), dest, source[..kept])
    {
      hide Flat, chip.Valid;
      ghost var m0 := chip.mem[..];
      var remaining: nat, target: nat, destination: nat := |source|, 0, dest;
      res := true;
      kept := 0;
      FlatNothing(m0, dest);
      assert source[..0] == [];
      while remaining > 0
        invariant remaining + target == |source| && destination == dest + target
        invariant res && kept == target
        invariant old(chip.ops) <= chip.ops
        invariant chip.mem[..] == Flat(m0, dest, source[..kept])
      {
        var n := Count(destination, remaining);
        var from, addr := target, destination;
        remaining := remaining - n;
        target := target + n;
        destination := destination + n;
        res := WriteChunk(addr, source[from..target]);
        if !res {
          break;
        }
        FlatSteps(m0, dest, source[..from], source[from..target]);
        assert source[..from] + source[from..target] == source[..target];
        kept := target;
      }
      next := destination;
    }

    /** Writes a block page by page and, unless it is empty, its checksum behind it; `kept` counts the
        bytes of the block that reached the device. */
    method WriteBlock(dest: nat, source: seq<bv8>, withChecksum: bool) returns (res: bool, ghost kept: nat)
      requires chip.Valid() && dest + |Stored(source, withChecksum)| <= chip.mem.Length
      modifies this, chip`ops, chip.mem
      ensures old(chip.ops) <= chip.ops
      ensures chip.Quiet(old(chip.ops), chip.ops) ==>
        res && chip.mem[..] == Flat(old(chip.mem[..]), dest, Stored(source, withChecksum))
      ensures kept <= |source| && res == (kept == |source|)
      ensures chip.mem[dest..dest + kept] == source[..kept]
      ensures !res && (!chip.twoBytes || !withChecksum) ==>
        chip.mem[..] == Flat(old(chip.mem[..]), dest, source[..kept])
      ensures SameOutside(old(chip.mem[..]), chip.mem[..], dest, |Stored(source, withChecksum)|)
    {
      hide Flat, Checksum, SameOutside, chip.Valid;
      ghost var m0, all := chip.mem[..], |Stored(source, withChecksum)|;
      var destination: nat;
      res, destination, kept := WritePages(dest, source);
      ghost var m1 := chip.mem[..];
      FlatOutside(m0, dest, source[..kept]);
      OutsideWider(m0, m1, dest, kept, dest, all);
      assert res ==> source[..kept] == source;
      if |source| > 0 && withChecksum && (chip.twoBytes || res) {
        WriteChecksum(source, destination);
        OutsideWider(m1, chip.mem[..], destination, 2, dest, all);
        OutsideBoth(m0, m1, chip.mem[..], dest, all);
        BeforeKept(m1, chip.mem[..], destination, dest, kept);
        if res {
          FlatSteps(m0, dest, source, Checksum(source));
        }
      }
    }

    /** Reads a block in chunks of at most 255 bytes and checks the checksum behind it. */
    method ReadBlock(destination: array<bv8>, source: nat, size: nat, withChecksum: bool) returns (res: bool)
      requires chip.Valid() && source + size + (if withChecksum then 2 else 0) <= chip.mem.Length
      requires size <= destination.Length && destination != chip.mem
      modifies this, chip`ops, destination
      ensures chip.Quiet(old(chip.ops), chip.ops) ==>
        (destination[..size], res) == Found(chip.mem[..], source, size, withChecksum)
      ensures destination[size..] == old(destination[size..])
    {
      hide Checksum, chip.Valid, Word;
      ghost var m0 := chip.mem[..];
      var remaining: nat, target: nat, from: nat := size, 0, source;
      while remaining > 0
        invariant remaining + target == size && from == source + target
        invariant old(chip.ops) <= chip.ops && chip.mem[..] == m0
        invariant chip.Quiet(old(chip.ops), chip.ops) ==> destination[..target] == m0[source..source + target]
        invariant destination[size..] == old(destination[size..])
      {
        var n := if remaining > 255 then 255 else remaining;
        ghost var was := target;
        ReadChunk(destination, target, from, n);
        remaining := remaining - n;
        target := target + n;
        from := from + n;
        if chip.Quiet(old(chip.ops), chip.ops) {
          ChunksJoin(m0, source, destination[..], was, target);
        }
      }
      res := true;
      if withChecksum {
        var low := GetByte(from);
        var high := GetByte(from + 1);
        res := CrcModbus.Modbus(destination[..size]) == Word(low, high);
        ChecksumIsWord(destination[..size], low, high);
        assert m0[source + size..source + size + 2] == [m0[from], m0[from + 1]];
      }
    }

    /** One read transfer into the buffer. */
    method ReadChunk(destination: array<bv8>, target: nat, addr: nat, n: nat)
      requires chip.Valid() && 0 < n && addr + n <= chip.mem.Length
      requires target + n <= destination.Length && destination != chip.mem
      modifies this, chip`ops, destination
      ensures chip.ops == old(chip.ops) + 1
      ensures destination[..target] == old(destination[..target])
      ensures destination[target + n..] == old(destination[target + n..])
      ensures !chip.faults(old(chip.ops)) ==> destination[target..target + n] == chip.mem[addr..addr + n]
    {
      hide Encode, Decode, ReadAt;
      wire := Encode(chip.twoBytes, addr);
      count := n;
      EncodeFaithful(chip.twoBytes, addr);
      ReadInside(chip.mem[..], addr, n);
      var ok, data := chip.Read(wire, n);
      if ok {
        forall i | 0 <= i < n {
          destination[target + i] := data[i];
        }
        assert forall i :: 0 <= i < n ==> destination[target + i] == data[i];
        assert destination[target..target + n] == data;
      }
    }
  }

  /** Two bytes as the firmware joins them, low byte first. */
  function Word(low: bv8, high: bv8): bv16 {
    (low as bv16) | ((high as bv16) << 8)
  }

  lemma WordBytes(c: bv16, low: bv8, high: bv8)
    ensures c == Word(low, high) <==> low == Words.LowByte(c) && high == Words.HighByte(c)
  {
    WordSplits(low, high);
    WordJoins(c);
  }

  lemma WordSplits(low: bv8, high: bv8)
    ensures Words.LowByte(Word(low, high)) == low && Words.HighByte(Word(low, high)) == high
  {
  }

  lemma WordJoins(c: bv16)
    ensures Word(Words.LowByte(c), Words.HighByte(c)) == c
  {
  }

  lemma ChecksumIsWord(data: seq<bv8>, low: bv8, high: bv8)
    ensures CrcModbus.Modbus(data) == Word(low, high) <==> [low, high] == Checksum(data)
  {
    hide Word;
    WordBytes(CrcModbus.Modbus(data), low, high);
  }

  /** The store round trip: after a successful write the read finds the data and a matching checksum,
      exactly unless the block is empty and the bytes at its address are not the checksum of nothing. */
  lemma RoundTrip(mem: seq<bv8>, dest: nat, data: seq<bv8>, withChecksum: bool)
    requires dest + |data| + (if withChecksum then 2 else 0) <= |mem|
    ensures Found(Flat(mem, dest, Stored(data, withChecksum)), dest, |data|, withChecksum) == (data, true)
            <==> data != [] || !withChecksum || mem[dest..dest + 2] == [0xFF, 0xFF]
  {
    hide Checksum;
    var r := Flat(mem, dest, Stored(data, withChecksum));
    assert r[dest..dest + |data|] == data;
    if data != [] && withChecksum {
      assert r[dest + |data|..dest + |data| + 2] == Checksum(data);
    } else if data == [] {
      assert r == mem;
      EmptyChecksum();
    }
  }

  /** A stored block in which at most two neighbouring bytes have changed is not accepted any more. */
  lemma CorruptionFound(mem: seq<bv8>, dest: nat, pre: seq<bv8>, a: bv8, b: bv8, c: bv8, d: bv8, post: seq<bv8>)
    requires (a, b) != (c, d) && dest + |pre| + |post| + 4 <= |mem|
    ensures var stored := Flat(mem, dest, Stored(pre + [a, b] + post, true));
      !Found(Flat(stored, dest + |pre|, [c, d]), dest, |pre| + |post| + 2, true).1
  {
    hide Checksum;
    var u, v := pre + [a, b] + post, pre + [c, d] + post;
    var r := Flat(Flat(mem, dest, Stored(u, true)), dest + |pre|, [c, d]);
    assert r[dest..dest + |u|] == v;
    assert r[dest + |u|..dest + |u| + 2] == Checksum(u);
    CrcModbus.TwoBytesDetected(pre, a, b, c, d, post);
    if Checksum(u) == Checksum(v) {
      SameChecksum(u, v);
    }
  }

  lemma SameChecksum(u: seq<bv8>, v: seq<bv8>)
    requires Checksum(u) == Checksum(v)
    ensures CrcModbus.Modbus(u) == CrcModbus.Modbus(v)
  {
    hide CrcModbus.Modbus, Words.LowByte, Words.HighByte;
    WordJoins(CrcModbus.Modbus(u));
    WordJoins(CrcModbus.Modbus(v));
  }

  lemma EmptyChecksum()
    ensures Checksum([]) == [0xFF, 0xFF]
  {
    assert CrcModbus.Modbus([]) == 0xFFFF;
  }

  /** Only the n cells from address dest on may differ. */
  ghost predicate SameOutside(m: seq<bv8>, r: seq<bv8>, dest: nat, n: nat) {
    |m| == |r| && forall i :: 0 <= i < |m| && !(dest <= i < dest + n) ==> r[i] == m[i]
  }

  lemma OutsideWider(m: seq<bv8>, r: seq<bv8>, dest: nat, n: nat, from: nat, all: nat)
    requires SameOutside(m, r, dest, n) && from <= dest && dest + n <= from + all
    ensures SameOutside(m, r, from, all)
  {
  }

  lemma OutsideBoth(m0: seq<bv8>, m1: seq<bv8>, m2: seq<bv8>, dest: nat, n: nat)
    requires SameOutside(m0, m1, dest, n) && SameOutside(m1, m2, dest, n)
    ensures SameOutside(m0, m2, dest, n)
  {
  }

  lemma BeforeKept(m: seq<bv8>, r: seq<bv8>, from: nat, dest: nat, kept: nat)
    requires SameOutside(m, r, from, 2) && dest + kept <= from && from + 2 <= |m|
    ensures r[dest..dest + kept] == m[dest..dest + kept]
  {
  }

  lemma FlatOutside(mem: seq<bv8>, dest: nat, data: seq<bv8>)
    requires dest + |data| <= |mem|
    ensures Flat(mem, dest, data)[dest..dest + |data|] == data
    ensures SameOutside(mem, Flat(mem, dest, data), dest, |data|)
  {
  }

  lemma FlatNothing(mem: seq<bv8>, dest: nat)
    requires dest <= |mem|
    ensures Flat(mem, dest, []) == mem
  {
  }

  lemma OneInPage(a: nat, page: nat)
    requires PageSize(page)
    ensures a % page + 1 <= page
  {
  }
}
