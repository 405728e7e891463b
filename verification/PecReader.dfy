/**
 The PEC decoder over an open file.
 */
module PecReader {
  import opened StitchRing
  import opened Pec

  class PecFile {
    const data: Bytes
    const palette: nat -> Byte
    var pos: nat
    var firstColor: int
    var colorIdx: nat

    predicate Valid()
      reads this
    {
      pos <= |data| && ColorOrNone(firstColor)
    }

    function View(): Reader
      requires Valid()
      reads this
    {
      Reader(data[pos..], firstColor, colorIdx)
    }

    /** Opened at the stitches, with the first colour still to announce. */
    constructor (data: Bytes, palette: nat -> Byte)
      ensures Valid() && this.data == data && this.palette == palette
      ensures View() == Reader(data, palette(0), 0)
    {
      this.data, this.palette := data, palette;
      pos, firstColor, colorIdx := 0, palette(0), 0;
    }

    /** Reads one byte; behind the end of the file it keeps its value. */
    method VfsRead(c: Byte) returns (b: Byte)
      requires Valid()
      modifies this`pos
      ensures Valid() && (b, data[pos..]) == Fetch(old(data[pos..]), c)
    {
      b := c;
      if pos < |data| {
        b := data[pos];
        pos := pos + 1;
      }
    }

    /** Reads the next stitch into `stitch`. */
    method GetStitch(stitch: Stitch, stale: Byte) returns (more: bool, r: Stitch)
      requires Valid()
      modifies this
      ensures Valid() && Result(more, r, View()) == Pec.GetStitch(palette, old(View()), stitch, stale)
    {
      hide Fetch, KindOf, Long, Short;
      r := stitch;
      if firstColor != -1 {
        r := Stitch(Stop, firstColor, 0.0, 0.0);
        firstColor := -1;
        return true, r;
      }
      var cmd := VfsRead(stale);
      r := r.(kind := Normal);
      more := cmd != END;
      if more {
        var dx, dy;
        // x
        if cmd >= 0x80 {
          if cmd == STOP {
            cmd := VfsRead(cmd);
            cmd := VfsRead(cmd);
            colorIdx := colorIdx + 1;
            r := Stitch(Stop, palette(colorIdx), 0.0, 0.0);
            return true, r;
          }
          r := r.(kind := KindOf(cmd));
          var high := cmd;
          cmd := VfsRead(cmd);
          dx := Long(high, cmd);
          cmd := VfsRead(cmd);
        } else {
          dx := Short(cmd);
          cmd := VfsRead(cmd);
        }
        // y
        if cmd >= 0x80 {
          r := r.(kind := KindOf(cmd));
          var high := cmd;
          cmd := VfsRead(cmd);
          dy := Long(high, cmd);
        } else {
          dy := Short(cmd);
        }
        r := r.(x := dx as real / 10.0, y := -dy as real / 10.0);
      }
    }

    /** Reads the stitches of the file up to its end mark. */
    method ReadAll(stitch: Stitch, stale: Byte, ghost sts: seq<Stitch>, ghost tail: Bytes) returns (out: seq<Stitch>)
      requires Valid() && Yields(palette, View(), stitch, stale, sts, tail)
      modifies this
      ensures Valid() && out == sts && data[pos..] == tail
    {
      hide Pec.GetStitch;
      ghost var rest := sts;
      out := [];
      var more, st := GetStitch(stitch, stale);
      while more
        invariant Valid() && out + rest == sts
        invariant more == (rest != [])
        invariant if more then st == rest[0] && Yields(palette, View(), st, stale, rest[1..], tail)
                  else data[pos..] == tail
        decreases |rest|
      {
        out := out + [st];
        rest := rest[1..];
        more, st := GetStitch(st, stale);
      }
    }
  }
}
