/**
 The file system partition in the unused part of an EEPROM: 256-byte blocks above the settings store.
 */
module LittleFs {
  import Eeprom

  const BLOCK: nat := 256

  /** The first address of the partition. */
  function Base(size: nat): nat {
    if size > 4096 then size else 4096
  }

  /** The partition begins behind the settings store and behind the first 4096 bytes, at whichever ends later. */
  lemma BaseAbove(size: nat)
    ensures Base(size) >= size && Base(size) >= 4096 && (Base(size) == size || Base(size) == 4096)
  {
  }

  /** The number of blocks, with 32-bit unsigned arithmetic. */
  function BlockCount(size: nat, sizeMax: nat): nat {
    ((sizeMax - Base(size)) % 0x1_0000_0000) / BLOCK
  }

  function Address(base: nat, block: nat, off: nat): nat {
    (base + block * BLOCK + off) % 0x1_0000_0000
  }

  /** The partition fits the device, exactly when it starts inside it: otherwise the subtraction wraps
      and the block count is that of a device of 4 GB. */
  lemma InsideDevice(size: nat, sizeMax: nat)
    requires size <= 0x1_0000 && sizeMax <= 0x1_0000
    ensures Base(size) <= sizeMax <==>
      forall block: nat, off: nat :: block < BlockCount(size, sizeMax) && off < BLOCK ==>
        Base(size) <= Address(Base(size), block, off) < sizeMax
  {
    if Base(size) <= sizeMax {
    } else {
      assert 0 < BlockCount(size, sizeMax) && Address(Base(size), 0, 0) == Base(size);
    }
  }

  const NVS_SIZE_MAX: nat := 4096

  /** For every size the settings store can have and every device that gets a partition, it fits. */
  lemma AlwaysInside(size: nat, sizeMax: nat, block: nat, off: nat)
    requires size <= NVS_SIZE_MAX <= sizeMax <= 0x1_0000
    requires block < BlockCount(size, sizeMax) && off < BLOCK
    ensures Base(size) == NVS_SIZE_MAX && NVS_SIZE_MAX <= Address(Base(size), block, off) < sizeMax
  {
    InsideDevice(size, sizeMax);
  }

  /** Two cells of the partition are the same cell only if block and offset agree. */
  lemma BlocksDisjoint(size: nat, sizeMax: nat, b: nat, i: nat, c: nat, j: nat)
    requires Base(size) <= sizeMax <= 0x1_0000 && i < BLOCK && j < BLOCK
    requires b < BlockCount(size, sizeMax) && c < BlockCount(size, sizeMax)
    ensures Address(Base(size), b, i) == Address(Base(size), c, j) <==> b == c && i == j
  {
  }

  predicate CellAt(size: nat, sizeMax: nat, b: nat, i: nat, a: nat) {
    b < BlockCount(size, sizeMax) && i < BLOCK && Address(Base(size), b, i) == a
  }

  lemma CellInside(size: nat, sizeMax: nat, b: nat, i: nat, a: nat)
    requires Base(size) <= sizeMax <= 0x1_0000 && CellAt(size, sizeMax, b, i, a)
    ensures Base(size) <= a < sizeMax - (sizeMax - Base(size)) % BLOCK
  {
  }

  lemma CellFound(size: nat, sizeMax: nat, a: nat)
    requires Base(size) <= sizeMax <= 0x1_0000
    requires Base(size) <= a < sizeMax - (sizeMax - Base(size)) % BLOCK
    ensures CellAt(size, sizeMax, (a - Base(size)) / BLOCK, (a - Base(size)) % BLOCK, a)
  {
  }

  /** The partition is the settings store, the blocks in order and at most 255 cells that no block uses. */
  lemma Covers(size: nat, sizeMax: nat, a: nat)
    requires Base(size) <= sizeMax <= 0x1_0000 && a < sizeMax
    ensures (exists b: nat, i: nat :: CellAt(size, sizeMax, b, i, a))
            <==> Base(size) <= a < sizeMax - (sizeMax - Base(size)) % BLOCK
  {
    hide CellAt, Base;
    if Base(size) <= a < sizeMax - (sizeMax - Base(size)) % BLOCK {
      CellFound(size, sizeMax, a);
    }
    if b: nat, i: nat :| CellAt(size, sizeMax, b, i, a) {
      CellInside(size, sizeMax, b, i, a);
    }
  }

  // ----- the partition as a value

  function Block(mem: seq<bv8>, base: nat, b: nat): (r: seq<bv8>)
    requires base + (b + 1) * BLOCK <= |mem|
    ensures |r| == BLOCK
  {
    mem[base + b * BLOCK..base + (b + 1) * BLOCK]
  }

  function Blocks(mem: seq<bv8>, base: nat, count: nat): (r: seq<seq<bv8>>)
    requires base + count * BLOCK <= |mem|
    ensures |r| == count && forall b :: 0 <= b < count ==> |r[b]| == BLOCK
  {
    seq(count, b requires 0 <= b < count => Block(mem, base, b))
  }

  /** Programming part of a block, seen on the blocks alone. */
  function Programmed(blocks: seq<seq<bv8>>, b: nat, off: nat, data: seq<bv8>): seq<seq<bv8>>
    requires b < |blocks| && off + |data| <= |blocks[b]|
  {
    blocks[b := Eeprom.Flat(blocks[b], off, data)]
  }

  lemma FlatInBlock(mem: seq<bv8>, base: nat, b: nat, off: nat, data: seq<bv8>)
    requires base + (b + 1) * BLOCK <= |mem| && off + |data| <= BLOCK
    ensures Block(Eeprom.Flat(mem, base + b * BLOCK + off, data), base, b)
            == Eeprom.Flat(Block(mem, base, b), off, data)
  {
  }

  /** A change inside one block is no change of the others, nor of the settings below. */
  lemma OtherBlocks(m: seq<bv8>, r: seq<bv8>, base: nat, count: nat, b: nat, off: nat, n: nat)
    requires base + count * BLOCK <= |m| && b < count && off + n <= BLOCK
    requires Eeprom.SameOutside(m, r, base + b * BLOCK + off, n)
    ensures r[..base] == m[..base]
    ensures r[base + count * BLOCK..] == m[base + count * BLOCK..]
    ensures forall c :: 0 <= c < count && c != b ==> Blocks(r, base, count)[c] == Blocks(m, base, count)[c]
  {
    forall c | 0 <= c < count && c != b
      ensures Blocks(r, base, count)[c] == Blocks(m, base, count)[c]
    {
      assert Block(r, base, c) == Block(m, base, c);
    }
  }

  lemma SliceOfSlice(s: seq<bv8>, a: nat, b: nat, i: nat, j: nat)
    requires a <= b <= |s| && i <= j <= b - a
    ensures s[a..b][i..j] == s[a + i..a + j]
  {
    var t := s[a..b];
    forall k | 0 <= k < j - i
      ensures t[i..j][k] == s[a + i..a + j][k]
    {
      assert t[i + k] == s[a + (i + k)];
    }
    assert |t[i..j]| == |s[a + i..a + j]|;
  }

  lemma PartOfBlock(mem: seq<bv8>, base: nat, count: nat, b: nat, off: nat, n: nat)
    requires base + count * BLOCK <= |mem| && b < count && off + n <= BLOCK
    ensures Blocks(mem, base, count)[b][off..off + n] == mem[base + b * BLOCK + off..base + b * BLOCK + off + n]
  {
    assert Blocks(mem, base, count)[b] == Block(mem, base, b);
    SliceOfSlice(mem, base + b * BLOCK, base + (b + 1) * BLOCK, off, off + n);
  }

  lemma FlatInBlocks(mem: seq<bv8>, base: nat, count: nat, b: nat, off: nat, data: seq<bv8>)
    requires base + count * BLOCK <= |mem| && b < count && off + |data| <= BLOCK
    ensures Blocks(Eeprom.Flat(mem, base + b * BLOCK + off, data), base, count)
            == Programmed(Blocks(mem, base, count), b, off, data)
  {
    hide Eeprom.Flat, Block, Eeprom.SameOutside;
    var r := Eeprom.Flat(mem, base + b * BLOCK + off, data);
    Eeprom.FlatOutside(mem, base + b * BLOCK + off, data);
    OtherBlocks(mem, r, base, count, b, off, |data|);
    FlatInBlock(mem, base, b, off, data);
    assert Blocks(r, base, count)[b] == Block(r, base, b);
  }

  class Partition {
    const nvs: Eeprom.Nvs
    const base: nat
    const count: nat

    constructor (nvs: Eeprom.Nvs, size: nat)
      ensures this.nvs == nvs && base == Base(size) && count == BlockCount(size, nvs.chip.mem.Length)
    {
      this.nvs, base, count := nvs, Base(size), BlockCount(size, nvs.chip.mem.Length);
    }

    /** The partition starts inside the device. */
    predicate Valid() {
      && nvs.chip.Valid() && nvs.chip.twoBytes
      && 4096 <= base <= nvs.chip.mem.Length && count == (nvs.chip.mem.Length - base) / BLOCK
    }

    function View(): seq<seq<bv8>>
      requires Valid()
      reads nvs.chip.mem
    {
      Blocks(nvs.chip.mem[..], base, count)
    }

    /** Inside the partition the address does not wrap. */
    lemma Plain(block: nat, off: nat)
      requires Valid() && block < count && off <= BLOCK
      ensures Address(base, block, off) == base + block * BLOCK + off
    {
    }

    /** The status returned is always success. */
    method Prog(block: nat, off: nat, data: seq<bv8>) returns (ok: bool)
      requires Valid() && block < count && off + |data| <= BLOCK
      modifies nvs, nvs.chip`ops, nvs.chip.mem
      ensures ok
      ensures old(nvs.chip.ops) <= nvs.chip.ops
      ensures nvs.chip.Quiet(old(nvs.chip.ops), nvs.chip.ops) ==>
        View() == Programmed(old(View()), block, off, data)
      ensures nvs.chip.mem[..base] == old(nvs.chip.mem[..base])
      ensures nvs.chip.mem[base + count * BLOCK..] == old(nvs.chip.mem[base + count * BLOCK..])
      ensures forall c :: 0 <= c < count && c != block ==> View()[c] == old(View())[c]
    {
      hide Eeprom.Flat, Eeprom.SameOutside, Block, nvs.chip.Valid;
      ghost var m0 := nvs.chip.mem[..];
      var address := Address(base, block, off);
      var _, _ := nvs.WriteBlock(address, data, false);
      assert Eeprom.Stored(data, false) == data;
      Plain(block, off);
      OtherBlocks(m0, nvs.chip.mem[..], base, count, block, off, |data|);
      FlatInBlocks(m0, base, count, block, off, data);
      ok := true;
    }

    method Read(block: nat, off: nat, buffer: array<bv8>, size: nat) returns (ok: bool)
      requires Valid() && block < count && off + size <= BLOCK
      requires size <= buffer.Length && buffer != nvs.chip.mem
      modifies nvs, nvs.chip`ops, buffer
      ensures ok
      ensures nvs.chip.Quiet(old(nvs.chip.ops), nvs.chip.ops) ==>
        buffer[..size] == View()[block][off..off + size]
      ensures buffer[size..] == old(buffer[size..])
    {
      hide Block, nvs.chip.Valid;
      var address := Address(base, block, off);
      Plain(block, off);
      var _ := nvs.ReadBlock(buffer, address, size, false);
      PartOfBlock(nvs.chip.mem[..], base, count, block, off, size);
      ok := true;
    }
  }

  // ----- runs

  datatype Program = Program(block: nat, off: nat, data: seq<bv8>)

  predicate InBlock(p: Program, count: nat) {
    p.block < count && p.off + |p.data| <= BLOCK
  }

  predicate Legal(ps: seq<Program>, count: nat) {
    forall i :: 0 <= i < |ps| ==> InBlock(ps[i], count)
  }

  predicate BlockSized(blocks: seq<seq<bv8>>) {
    forall b :: 0 <= b < |blocks| ==> |blocks[b]| == BLOCK
  }

  function After(blocks: seq<seq<bv8>>, ps: seq<Program>): (r: seq<seq<bv8>>)
    requires BlockSized(blocks) && Legal(ps, |blocks|)
    ensures BlockSized(r) && |r| == |blocks|
  {
    if ps == [] then blocks
    else
      var p := ps[|ps| - 1];
      Programmed(After(blocks, ps[..|ps| - 1]), p.block, p.off, p.data)
  }

  /** Two programs that touch no common cell. */
  predicate Apart(p: Program, q: Program) {
    q.block != p.block || q.off + |q.data| <= p.off || p.off + |p.data| <= q.off
  }

  lemma ProgramKeeps(blocks: seq<seq<bv8>>, p: Program, q: Program)
    requires BlockSized(blocks) && InBlock(p, |blocks|) && InBlock(q, |blocks|) && Apart(p, q)
    ensures Programmed(blocks, q.block, q.off, q.data)[p.block][p.off..p.off + |p.data|]
            == blocks[p.block][p.off..p.off + |p.data|]
  {
  }

  /** Whatever was programmed before, and whatever is programmed afterwards outside these cells, the cells
      hold the data. */
  lemma {:induction false} LastProgramStays(blocks: seq<seq<bv8>>, ps: seq<Program>, p: Program, rest: seq<Program>)
    requires BlockSized(blocks) && Legal(ps + [p] + rest, |blocks|) && InBlock(p, |blocks|)
    requires forall i :: 0 <= i < |rest| ==> Apart(p, rest[i])
    ensures After(blocks, ps + [p] + rest)[p.block][p.off..p.off + |p.data|] == p.data
    decreases |rest|
  {
    hide Programmed;
    var all := ps + [p] + rest;
    if rest == [] {
      assert all[..|all| - 1] == ps && all[|all| - 1] == p;
      ProgramHolds(After(blocks, ps), p);
    } else {
      var less, q := rest[..|rest| - 1], rest[|rest| - 1];
      assert all[..|all| - 1] == ps + [p] + less && all[|all| - 1] == q;
      LastProgramStays(blocks, ps, p, less);
      ProgramKeeps(After(blocks, ps + [p] + less), p, q);
    }
  }

  lemma ProgramHolds(blocks: seq<seq<bv8>>, p: Program)
    requires BlockSized(blocks) && InBlock(p, |blocks|)
    ensures Programmed(blocks, p.block, p.off, p.data)[p.block][p.off..p.off + |p.data|] == p.data
  {
  }
}
