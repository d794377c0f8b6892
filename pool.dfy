/// The free list of dead particle records: a stack (last recycled, first reused)
/// that keeps at most Capacity records and drops the rest.
module Pool {
  import opened Seqs
  import opened Particles

  /** Most records the pool retains. */
  const Capacity: nat := 1000

  function MinInt(a: int, b: int): int {
    if a <= b then a else b
  }

  /** The pool's contents after one recycle of `p`: pushed on top while there is room. */
  function Push<T>(items: seq<T>, p: T): (r: seq<T>)
    ensures |items| <= Capacity ==> |r| == MinInt(|items| + 1, Capacity)
    ensures |items| <= |r| && r[..|items|] == items
    ensures |r| > |items| ==> r[|items|] == p
  {
    if |items| < Capacity then items + [p] else items
  }

  /** The pool's contents after recycling `rs`, in order, one record at a time. */
  function RecycleAll<T>(items: seq<T>, rs: seq<T>): seq<T>
    decreases |rs|
  {
    if rs == [] then items else Push(RecycleAll(items, rs[..|rs| - 1]), rs[|rs| - 1])
  }

  /** Recycling one more record after a batch is one more push. */
  lemma RecycleAllSnoc<T>(items: seq<T>, rs: seq<T>, r: T)
    ensures RecycleAll(items, rs + [r]) == Push(RecycleAll(items, rs), r)
  {
  }

  /** Recycling a batch keeps the records in order and stops at the capacity: the
      pool becomes the longest prefix of `items + rs` that fits. */
  lemma {:induction false} RecycleAllPrefix<T>(items: seq<T>, rs: seq<T>)
    requires |items| <= Capacity
    ensures RecycleAll(items, rs) == (items + rs)[..MinInt(|items| + |rs|, Capacity)]
    decreases |rs|
  {
    if rs != [] {
      var n := |rs| - 1;
      RecycleAllPrefix(items, rs[..n]);
      assert items + rs[..n] == (items + rs)[..|items| + n];
    }
  }

  /** Recycling two batches one after the other is recycling them as one batch. */
  lemma {:induction false} RecycleAllAppend<T>(items: seq<T>, a: seq<T>, b: seq<T>)
    ensures RecycleAll(RecycleAll(items, a), b) == RecycleAll(items, a + b)
    decreases |b|
  {
    if b != [] {
      var n := |b| - 1;
      RecycleAllAppend(items, a, b[..n]);
      assert (a + b)[..|a + b| - 1] == a + b[..n];
      assert (a + b)[|a + b| - 1] == b[n];
    } else {
      assert a + b == a;
    }
  }

  /** Corollary: no batch of recycles takes the pool past its capacity, and every
      record of the batch is kept while there is room. */
  lemma RecycleAllSize<T>(items: seq<T>, rs: seq<T>)
    requires |items| <= Capacity
    ensures |RecycleAll(items, rs)| == MinInt(|items| + |rs|, Capacity)
    ensures multiset(RecycleAll(items, rs)) <= multiset(items) + multiset(rs)
  {
    RecycleAllPrefix(items, rs);
    var k := MinInt(|items| + |rs|, Capacity);
    assert items + rs == (items + rs)[..k] + (items + rs)[k..];
    assert multiset(items + rs) == multiset((items + rs)[..k]) + multiset((items + rs)[k..]);
    assert multiset(items + rs) == multiset(items) + multiset(rs);
  }

  /** The handle that the obtain numbered `j` (from 0) of a run of obtains gives,
      starting from a pool holding `items` while `lo` records exist: the pool is
      emptied from the top, then new records are allocated. */
  function Obtained(items: seq<Handle>, lo: nat, j: nat): Handle {
    if j < |items| then items[|items| - 1 - j] else lo + (j - |items|)
  }

  /** The handles that `k` obtains in a row give, in order. */
  function ObtainOrder(items: seq<Handle>, lo: nat, k: nat): (r: seq<Handle>)
    ensures |r| == k
  {
    if k == 0 then [] else ObtainOrder(items, lo, k - 1) + [Obtained(items, lo, k - 1)]
  }

  /** A run of `k` obtains gives the pooled handles, the most recently recycled
      first, until the pool runs out, and then newly allocated handles in
      increasing order. */
  lemma {:induction false} ObtainOrderShape(items: seq<Handle>, lo: nat, k: nat)
    ensures var taken := MinInt(k, |items|);
            ObtainOrder(items, lo, k) == Reverse(items[|items| - taken..]) + Allocated(lo, k - taken)
  {
    if k > 0 {
      ObtainOrderShape(items, lo, k - 1);
      var m := |items|;
      if k - 1 < m {
        assert items[m - k..][1..] == items[m - (k - 1)..];
        assert Allocated(lo, 0) == [];
      }
    }
  }

  /** Obtaining right after recycling into a pool with room gives back the record
      just recycled and restores the pool: the pool is last in, first out. */
  lemma ObtainAfterRecycle(items: seq<Handle>, lo: nat, h: Handle)
    requires |items| < Capacity
    ensures var pushed := Push(items, h);
            Obtained(pushed, lo, 0) == h && pushed[..|pushed| - 1] == items
  {
  }

  /** A run of obtains gives only pooled handles and newly allocated ones. */
  lemma {:induction false} ObtainOrderFrom(items: seq<Handle>, lo: nat, k: nat, h: Handle)
    requires h in ObtainOrder(items, lo, k)
    ensures h in items || h >= lo
  {
    if k > 0 && h != Obtained(items, lo, k - 1) {
      ObtainOrderFrom(items, lo, k - 1, h);
    }
  }

  class ParticlePool {
    /** Handles of the dead records, the most recently recycled one last. */
    var items: seq<Handle>

    ghost predicate Valid()
      reads this
    {
      |items| <= Capacity
    }

    constructor ()
      ensures Valid() && items == []
    {
      items := [];
    }

    /** A live record with attributes `a`: the most recently recycled record,
        taken off the pool and overwritten, or a newly allocated one when the
        pool is empty. */
    method Obtain(arena: Arena, a: Attrs) returns (h: Handle)
      requires Valid() && arena.Owns(items)
      modifies this, arena
      ensures Valid() && arena.Owns(items)
      ensures h < |arena.slots| && arena.slots[h] == Particle(a, true)
      ensures old(items) != [] ==>
                h == old(items)[|old(items)| - 1] && items == old(items)[..|old(items)| - 1]
                && arena.slots == old(arena.slots)[h := Particle(a, true)]
      ensures old(items) == [] ==>
                h == |old(arena.slots)| && items == []
                && arena.slots == old(arena.slots) + [Particle(a, true)]
    {
      if items != [] {
        h := items[|items| - 1];
        items := items[..|items| - 1];
        arena.slots := arena.slots[h := Particle(a, true)];
      } else {
        h := arena.New(a);
      }
    }

    /** Marks record `h` dead and keeps it for reuse, unless the pool is full. */
    method Recycle(arena: Arena, h: Handle)
      requires Valid() && arena.Owns(items) && h < |arena.slots|
      modifies this, arena
      ensures Valid() && arena.Owns(items)
      ensures arena.slots == old(arena.slots)[h := old(arena.slots)[h].(alive := false)]
      ensures items == Push(old(items), h)
    {
      arena.slots := arena.slots[h := arena.slots[h].(alive := false)];
      if |items| < Capacity {
        items := items + [h];
      }
    }
  }
}
