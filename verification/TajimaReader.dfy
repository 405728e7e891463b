/**
 The Tajima decoder over an open file.
 */
module TajimaReader {
  import opened StitchRing
  import opened Tajima

  class TajimaFile {
    const data: Bytes
    var pos: nat
    var firstColor: int

    predicate Valid()
      reads this
    {
      pos <= |data| && firstColor >= -1
    }

    /** Opened at the stitches; no first colour is announced. */
    constructor (data: Bytes)
      ensures Valid() && this.data == data && pos == 0 && firstColor == -1
    {
      this.data := data;
      pos, firstColor := 0, -1;
    }

    /** Reads up to three bytes. */
    method VfsRead() returns (bytes: Bytes)
      requires Valid()
      modifies this`pos
      ensures Valid() && bytes + data[pos..] == old(data[pos..])
      ensures |bytes| == if |data| - old(pos) < 3 then |data| - old(pos) else 3
    {
      var n := if |data| - pos < 3 then |data| - pos else 3;
      bytes := data[pos..pos + n];
      pos := pos + n;
    }

    /** Reads the next stitch into `stitch`. */
    method GetStitch(stitch: Stitch) returns (more: bool, r: Stitch)
      requires Valid()
      modifies this
      ensures Valid()
      ensures Result(more, r, data[pos..], firstColor)
              == Tajima.GetStitch(old(data[pos..]), old(firstColor), stitch)
    {
      hide IsEnd, XDigits, YDigits, Value;
      r := stitch;
      if firstColor != -1 {
        r := r.(kind := Stop, color := firstColor);
        firstColor := -1;
        return true, r;
      }
      ghost var rest := data[pos..];
      var sd := VfsRead();
      if |sd| == 3 {
        assert rest[..3] == sd && rest[3..] == data[pos..];
        if IsEnd(sd[2]) {
          return false, r;
        }
        var sm := false;
        var dx := GetX(sd[2], sd[1], sd[0]);
        var dy := GetY(sd[2], sd[1], sd[0]);
        if sd[2] & 0xC3 == 0xC3 {
          r := r.(kind := Stop);
        } else if sd[2] & 0x43 == 0x43 {
          sm := !sm;
        } else if sd[2] & 0x83 == 0x83 {
          r := r.(kind := if sm then SequinEject else Jump);
        } else {
          r := r.(kind := Normal);
        }
        r := r.(x := dx as real / 10.0, y := dy as real / 10.0);
      } else {
        assert data[pos..] == [];
        return false, r;
      }
      more := true;
    }

    /** Reads the stitches of the file up to its end mark. */
    method ReadAll(stitch: Stitch, ghost sts: seq<Stitch>, ghost tail: Bytes) returns (out: seq<Stitch>)
      requires Valid() && firstColor == -1 && Yields(data[pos..], stitch, sts, tail)
      modifies this
      ensures Valid() && out == sts && data[pos..] == tail
    {
      hide Tajima.GetStitch;
      ghost var rest := sts;
      out := [];
      var more, st := GetStitch(stitch);
      while more
        invariant Valid() && firstColor == -1 && out + rest == sts
        invariant more == (rest != [])
        invariant if more then st == rest[0] && Yields(data[pos..], st, rest[1..], tail) else data[pos..] == tail
        decreases |rest|
      {
        out := out + [st];
        rest := rest[1..];
        more, st := GetStitch(st);
      }
    }
  }
}
