/**
 The stitch queue: a ring of eight slots, of which one stays free.
 */
module StitchRing {

  const SIZE: nat := 8

  datatype Kind = Normal | Trim | Jump | Stop | SequinEject

  datatype Stitch = Stitch(kind: Kind, color: nat, x: real, y: real)

  datatype Ring = Ring(slots: seq<Stitch>, head: nat, tail: nat)

  predicate Sized(q: Ring) {
    |q.slots| == SIZE && q.head < SIZE && q.tail < SIZE
  }

  /** An index masked to the ring. */
  function Slot(i: nat): (r: nat)
    requires i < 2 * SIZE
    ensures r < SIZE && r == i % SIZE
  {
    if i < SIZE then i else i - SIZE
  }

  predicate Full(q: Ring)
    requires Sized(q)
  {
    Slot(q.head + 1) == q.tail
  }

  predicate Empty(q: Ring) {
    q.tail == q.head
  }

  function Head(q: Ring): Stitch
    requires Sized(q)
  {
    q.slots[q.tail]
  }

  function Put(q: Ring, st: Stitch): (r: Ring)
    requires Sized(q)
    ensures Sized(r)
  {
    Ring(q.slots[q.head := st], Slot(q.head + 1), q.tail)
  }

  function Take(q: Ring): (r: Ring)
    requires Sized(q)
    ensures Sized(r)
  {
    q.(tail := Slot(q.tail + 1))
  }

  function Length(q: Ring): (n: nat)
    requires Sized(q)
    ensures n < SIZE
  {
    if q.head >= q.tail then q.head - q.tail else q.head + SIZE - q.tail
  }

  /** The stitches in the ring, oldest first. */
  function Contents(q: Ring): (c: seq<Stitch>)
    requires Sized(q)
    ensures |c| < SIZE
  {
    seq(Length(q), i requires 0 <= i < Length(q) => q.slots[Slot(q.tail + i)])
  }

  lemma PutContents(q: Ring, st: Stitch)
    requires Sized(q) && !Full(q)
    ensures Contents(Put(q, st)) == Contents(q) + [st]
  {
    var r := Put(q, st);
    assert Length(r) == Length(q) + 1 && Slot(q.tail + Length(q)) == q.head;
    forall i | 0 <= i < Length(q)
      ensures Contents(r)[i] == Contents(q)[i]
    {
      assert Slot(q.tail + i) != q.head;
    }
  }

  lemma TakeContents(q: Ring)
    requires Sized(q) && !Empty(q)
    ensures Contents(q) == [Head(q)] + Contents(Take(q))
  {
    var r := Take(q);
    assert Length(r) == Length(q) - 1;
    var c, d := Contents(q), [Head(q)] + Contents(r);
    forall i | 0 <= i < |c|
      ensures c[i] == d[i]
    {
      if i > 0 {
        assert Slot(r.tail + (i - 1)) == Slot(q.tail + i);
      }
    }
    assert |c| == |d|;
  }

  /** A slot outside the queue may hold anything. */
  lemma FreeSlot(q: Ring, junk: Stitch)
    requires Sized(q)
    ensures Contents(q.(slots := q.slots[q.head := junk])) == Contents(q)
  {
    var r := q.(slots := q.slots[q.head := junk]);
    assert Length(r) == Length(q);
    forall i | 0 <= i < Length(q)
      ensures Contents(r)[i] == Contents(q)[i]
    {
      assert Slot(q.tail + i) != q.head;
    }
  }

  lemma EmptyContents(q: Ring)
    requires Sized(q)
    ensures Empty(q) <==> Contents(q) == []
    ensures Full(q) <==> |Contents(q)| == SIZE - 1
  {
  }
}
