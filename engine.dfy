/// The confetti engine: the ordered list of live particles, the private pool
/// of dead ones, the screen height that sets the retirement line, and the
/// frame counter that tells the renderer a new frame is ready. Particles are
/// handles of records in the engine's arena.
module Engine {
  import opened Seqs
  import opened Particles
  import opened Pool
  import opened Bursts

  /** How far below the screen a particle falls before it is retired. */
  const ScreenMargin: real := 100.0

  function Max(a: int, b: int): int {
    if a <= b then b else a
  }

  /** What the update does to the record with handle `h`; a handle that addresses
      no record is passed over like a dead one. */
  function FateAt(slots: seq<Particle>, h: Handle, f: FrameStep): (k: Fate)
    ensures h < |slots| ==> k == FateOf(slots[h], f)
    ensures k != Skipped ==> h < |slots|
  {
    if h < |slots| then FateOf(slots[h], f) else Skipped
  }

  /** The handles of `hs`, in their order, whose record in `slots` has the fate `k`
      under the frame step `f`. */
  function Select(hs: seq<Handle>, slots: seq<Particle>, f: FrameStep, k: Fate): seq<Handle>
    decreases |hs|
  {
    if hs == [] then []
    else
      var n := |hs| - 1;
      Select(hs[..n], slots, f, k) + if FateAt(slots, hs[n], f) == k then [hs[n]] else []
  }

  /** The records after an update has stepped the records of `hs` one after
      the other. */
  function Stepped(slots: seq<Particle>, hs: seq<Handle>, f: FrameStep): (r: seq<Particle>)
    ensures |r| == |slots|
    decreases |hs|
  {
    if hs == [] then slots
    else
      var n := |hs| - 1;
      var t := Stepped(slots, hs[..n], f);
      if hs[n] < |t| then t[hs[n] := Next(t[hs[n]], f)] else t
  }

  /** A record whose handle is not stepped keeps its state. */
  lemma {:induction false} SteppedOutside(slots: seq<Particle>, hs: seq<Handle>, f: FrameStep, h: Handle)
    requires h < |slots| && h !in hs
    ensures Stepped(slots, hs, f)[h] == slots[h]
    decreases |hs|
  {
    if hs != [] {
      var n := |hs| - 1;
      assert hs == hs[..n] + [hs[n]];
      SteppedOutside(slots, hs[..n], f, h);
    }
  }

  /** With no handle listed twice, an update steps each listed record exactly
      once and leaves every other record as it was. */
  lemma {:induction false} SteppedAt(slots: seq<Particle>, hs: seq<Handle>, f: FrameStep, h: Handle)
    requires NoDup(hs) && h < |slots|
    ensures Stepped(slots, hs, f)[h] == if h in hs then Next(slots[h], f) else slots[h]
    decreases |hs|
  {
    if hs != [] {
      var n := |hs| - 1;
      assert hs == hs[..n] + [hs[n]];
      NoDupApart(hs[..n], [hs[n]]);
      SteppedAt(slots, hs[..n], f, h);
      if hs[n] < |slots| {
        SteppedAt(slots, hs[..n], f, hs[n]);
      }
    }
  }

  /** Selecting from one more position appends that handle when it has the fate. */
  lemma SelectStep(hs: seq<Handle>, slots: seq<Particle>, f: FrameStep, i: int)
    requires 0 <= i < |hs|
    ensures forall k: Fate :: Select(hs[..i + 1], slots, f, k)
              == Select(hs[..i], slots, f, k) + if FateAt(slots, hs[i], f) == k then [hs[i]] else []
  {
    assert hs[..i + 1][..i] == hs[..i];
  }

  /** A handle is selected exactly when it is in the list and its record has that fate. */
  lemma {:induction false} SelectMembers(hs: seq<Handle>, slots: seq<Particle>, f: FrameStep, k: Fate, h: Handle)
    ensures h in Select(hs, slots, f, k) <==> h in hs && FateAt(slots, h, f) == k
    decreases |hs|
  {
    if hs != [] {
      var n := |hs| - 1;
      SelectMembers(hs[..n], slots, f, k, h);
      assert hs == hs[..n] + [hs[n]];
    }
  }

  /** A handle occurs in the selection of fate `k` as often as in the list when
      its record has that fate, and not at all otherwise. */
  lemma {:induction false} SelectCount(hs: seq<Handle>, slots: seq<Particle>, f: FrameStep, k: Fate, h: Handle)
    ensures multiset(Select(hs, slots, f, k))[h] == if FateAt(slots, h, f) == k then multiset(hs)[h] else 0
    decreases |hs|
  {
    if hs != [] {
      var n := |hs| - 1;
      var init, x: Handle := hs[..n], hs[n];
      SelectCount(init, slots, f, k, h);
      var rest: seq<Handle> := Select(init, slots, f, k);
      assert multiset(hs) == multiset(init) + multiset{x} by {
        assert hs == init + [x];
      }
      if FateAt(slots, x, f) == k {
        assert multiset(Select(hs, slots, f, k)) == multiset(rest) + multiset{x} by {
          assert Select(hs, slots, f, k) == rest + [x];
        }
      } else {
        assert Select(hs, slots, f, k) == rest + [];
      }
    }
  }

  /** Every particle has exactly one fate: the survivors, the retired and the
      skipped particles together are the original list, each handle as often. */
  lemma SelectSplit(hs: seq<Handle>, slots: seq<Particle>, f: FrameStep)
    ensures multiset(Select(hs, slots, f, Survives)) + multiset(Select(hs, slots, f, Retires))
            + multiset(Select(hs, slots, f, Skipped)) == multiset(hs)
  {
    forall h
      ensures multiset(Select(hs, slots, f, Survives))[h] + multiset(Select(hs, slots, f, Retires))[h]
              + multiset(Select(hs, slots, f, Skipped))[h] == multiset(hs)[h]
    {
      SelectCount(hs, slots, f, Survives, h);
      SelectCount(hs, slots, f, Retires, h);
      SelectCount(hs, slots, f, Skipped, h);
    }
  }

  /** Stepping one more record, not stepped before, changes only its slot. */
  lemma SteppedStep(slots: seq<Particle>, hs: seq<Handle>, f: FrameStep, i: int)
    requires 0 <= i < |hs| && hs[i] < |slots| && hs[i] !in hs[..i]
    ensures Stepped(slots, hs[..i], f)[hs[i]] == slots[hs[i]]
    ensures Stepped(slots, hs[..i + 1], f) == Stepped(slots, hs[..i], f)[hs[i] := Next(slots[hs[i]], f)]
  {
    assert hs[..i + 1][..i] == hs[..i];
    SteppedOutside(slots, hs[..i], f, hs[i]);
  }

  /** When every particle of a frame retires, the live list empties and the pool
      takes the retired records in order up to its capacity. */
  lemma {:induction false} AllRetire(hs: seq<Handle>, slots: seq<Particle>, f: FrameStep, items: seq<Handle>)
    requires |items| <= Capacity
    requires forall h :: h in hs ==> FateAt(slots, h, f) == Retires
    ensures Select(hs, slots, f, Survives) == []
    ensures Select(hs, slots, f, Retires) == hs
    ensures |RecycleAll(items, Select(hs, slots, f, Retires))| == MinInt(|items| + |hs|, Capacity)
    decreases |hs|
  {
    if hs != [] {
      var n := |hs| - 1;
      assert hs == hs[..n] + [hs[n]];
      AllRetire(hs[..n], slots, f, items);
    }
    RecycleAllSize(items, hs);
  }

  /** Compaction and recycling keep every record unique across the live list and
      the pool: survivors and retired records are different records of the old
      live list, and the pool only gains records it did not hold. */
  lemma CompactionNoDup(hs: seq<Handle>, slots: seq<Particle>, f: FrameStep, items: seq<Handle>)
    requires |items| <= Capacity
    requires NoDup(hs + items)
    ensures NoDup(Select(hs, slots, f, Survives) + RecycleAll(items, Select(hs, slots, f, Retires)))
  {
    var kept, retired := Select(hs, slots, f, Survives), Select(hs, slots, f, Retires);
    SelectSplit(hs, slots, f);
    RecycleAllSize(items, retired);
    assert multiset(kept + RecycleAll(items, retired)) <= multiset(hs + items);
    NoDupSub(kept + RecycleAll(items, retired), hs + items);
  }

  /** After an update the survivors and the pool still address records of the
      arena, which the update does not grow. */
  lemma UpdateOwns(hs: seq<Handle>, slots: seq<Particle>, f: FrameStep, items: seq<Handle>)
    requires Within(items, |slots|) && |items| <= Capacity
    ensures Within(Select(hs, slots, f, Survives), |slots|)
    ensures Within(RecycleAll(items, Select(hs, slots, f, Retires)), |slots|)
  {
    var kept, retired := Select(hs, slots, f, Survives), Select(hs, slots, f, Retires);
    var pooled := RecycleAll(items, retired);
    forall i | 0 <= i < |kept|
      ensures kept[i] < |slots|
    {
      SelectMembers(hs, slots, f, Survives, kept[i]);
    }
    RecycleAllSize(items, retired);
    forall i | 0 <= i < |pooled|
      ensures pooled[i] < |slots|
    {
      assert pooled[i] in multiset(items) + multiset(retired);
      if pooled[i] in retired {
        SelectMembers(hs, slots, f, Retires, pooled[i]);
      }
    }
  }

  /** An update leaves every survivor alive after its step. */
  lemma SurvivorsAlive(hs: seq<Handle>, slots: seq<Particle>, f: FrameStep)
    requires NoDup(hs)
    ensures var st, kept := Stepped(slots, hs, f), Select(hs, slots, f, Survives);
            forall i :: 0 <= i < |kept| ==> 0 <= kept[i] < |st| && st[kept[i]].alive
  {
    var st, kept := Stepped(slots, hs, f), Select(hs, slots, f, Survives);
    forall i | 0 <= i < |kept|
      ensures 0 <= kept[i] < |st| && st[kept[i]].alive
    {
      SelectMembers(hs, slots, f, Survives, kept[i]);
      SteppedAt(slots, hs, f, kept[i]);
    }
  }

  /** An update keeps the pool dead: retired records are marked dead before
      they are pooled, and the records already pooled are not touched. */
  lemma PoolStaysDead(hs: seq<Handle>, slots: seq<Particle>, f: FrameStep, items: seq<Handle>)
    requires Within(items, |slots|) && |items| <= Capacity
    requires NoDup(hs + items)
    requires forall i :: 0 <= i < |items| ==> !slots[items[i]].alive
    ensures var st, pooled := Stepped(slots, hs, f), RecycleAll(items, Select(hs, slots, f, Retires));
            forall i :: 0 <= i < |pooled| ==> 0 <= pooled[i] < |st| && !st[pooled[i]].alive
  {
    var st := Stepped(slots, hs, f);
    var retired := Select(hs, slots, f, Retires);
    var pooled := RecycleAll(items, retired);
    NoDupApart(hs, items);
    RecycleAllSize(items, retired);
    forall i | 0 <= i < |pooled|
      ensures 0 <= pooled[i] < |st| && !st[pooled[i]].alive
    {
      var h := pooled[i];
      assert h in multiset(items) + multiset(retired);
      if h in retired {
        SelectMembers(hs, slots, f, Retires, h);
        SteppedAt(slots, hs, f, h);
      } else {
        var j :| 0 <= j < |items| && items[j] == h;
        assert h !in hs;
        SteppedOutside(slots, hs, f, h);
      }
    }
  }

  /** One iteration of the update loop on a dead record at position `i`: nothing
      is stepped, kept or pooled. */
  lemma UpdateSkips(hs: seq<Handle>, slots: seq<Particle>, f: FrameStep, i: int)
    requires 0 <= i < |hs| && hs[i] < |slots| && hs[i] !in hs[..i]
    requires !slots[hs[i]].alive
    ensures Select(hs[..i + 1], slots, f, Survives) == Select(hs[..i], slots, f, Survives)
    ensures Select(hs[..i + 1], slots, f, Retires) == Select(hs[..i], slots, f, Retires)
    ensures Stepped(slots, hs[..i + 1], f) == Stepped(slots, hs[..i], f)
  {
    var h, st := hs[i], Stepped(slots, hs[..i], f);
    SelectStep(hs, slots, f, i);
    SteppedStep(slots, hs, f, i);
    assert Select(hs[..i + 1], slots, f, Retires) == Select(hs[..i], slots, f, Retires);
    assert Next(slots[h], f) == slots[h];
    assert st[h := slots[h]] == st;
  }

  /** One iteration of the update loop on a live record at position `i` that
      ends below the line `f.bottom`: it is stepped, marked dead and pushed on
      the pool. */
  lemma UpdateRetires(hs: seq<Handle>, slots: seq<Particle>, f: FrameStep, i: int)
    requires 0 <= i < |hs| && hs[i] < |slots| && hs[i] !in hs[..i]
    requires slots[hs[i]].alive && Advance(slots[hs[i]].attrs, f.dt, f.exp, f.sin).y > f.bottom
    ensures Select(hs[..i + 1], slots, f, Survives) == Select(hs[..i], slots, f, Survives)
    ensures Select(hs[..i + 1], slots, f, Retires) == Select(hs[..i], slots, f, Retires) + [hs[i]]
    ensures Stepped(slots, hs[..i + 1], f)
            == Stepped(slots, hs[..i], f)[hs[i] := Particle(Advance(slots[hs[i]].attrs, f.dt, f.exp, f.sin), false)]
  {
    SelectStep(hs, slots, f, i);
    SteppedStep(slots, hs, f, i);
  }

  /** One iteration of the update loop on a live record at position `i` that
      stays above the line `f.bottom`: it is stepped and kept as the next survivor. */
  lemma UpdateKeeps(hs: seq<Handle>, slots: seq<Particle>, f: FrameStep, i: int)
    requires 0 <= i < |hs| && hs[i] < |slots| && hs[i] !in hs[..i]
    requires slots[hs[i]].alive && Advance(slots[hs[i]].attrs, f.dt, f.exp, f.sin).y <= f.bottom
    ensures Select(hs[..i + 1], slots, f, Survives) == Select(hs[..i], slots, f, Survives) + [hs[i]]
    ensures Select(hs[..i + 1], slots, f, Retires) == Select(hs[..i], slots, f, Retires)
    ensures Stepped(slots, hs[..i + 1], f)
            == Stepped(slots, hs[..i], f)[hs[i] := Particle(Advance(slots[hs[i]].attrs, f.dt, f.exp, f.sin), true)]
  {
    SelectStep(hs, slots, f, i);
    SteppedStep(slots, hs, f, i);
    assert Select(hs[..i + 1], slots, f, Retires) == Select(hs[..i], slots, f, Retires);
  }

  /** An update keeps the engine's records well kept: the survivors and the
      pool address records of the arena and hold no record twice. */
  lemma UpdateKeepsValid(hs: seq<Handle>, slots: seq<Particle>, f: FrameStep, items: seq<Handle>)
    requires Within(items, |slots|) && |items| <= Capacity
    requires NoDup(hs + items)
    ensures var kept, pooled := Select(hs, slots, f, Survives), RecycleAll(items, Select(hs, slots, f, Retires));
            Within(kept, |slots|) && Within(pooled, |slots|) && |pooled| <= Capacity && NoDup(kept + pooled)
  {
    CompactionNoDup(hs, slots, f, items);
    UpdateOwns(hs, slots, f, items);
    RecycleAllSize(items, Select(hs, slots, f, Retires));
  }

  /** An update keeps every survivor alive and every pooled record dead. */
  lemma UpdateKeepsPartition(hs: seq<Handle>, slots: seq<Particle>, f: FrameStep, items: seq<Handle>)
    requires Within(items, |slots|) && |items| <= Capacity
    requires NoDup(hs + items)
    requires forall i :: 0 <= i < |items| ==> !slots[items[i]].alive
    ensures AliveDead(Stepped(slots, hs, f), Select(hs, slots, f, Survives),
                      RecycleAll(items, Select(hs, slots, f, Retires)))
  {
    NoDupApart(hs, items);
    SurvivorsAlive(hs, slots, f);
    PoolStaysDead(hs, slots, f, items);
  }

  /** The state an update works on: the live list, the records and the pool. */
  datatype Snapshot = Snapshot(live: seq<Handle>, slots: seq<Particle>, pool: seq<Handle>)

  /** The state after one update with frame step `f`: the survivors in order,
      the stepped records and the pool with the retired records recycled. */
  function Frame(e: Snapshot, f: FrameStep): Snapshot {
    Snapshot(Select(e.live, e.slots, f, Survives), Stepped(e.slots, e.live, f),
             RecycleAll(e.pool, Select(e.live, e.slots, f, Retires)))
  }

  /** The state after one update per frame step of `fs`, in order. */
  function Frames(e: Snapshot, fs: seq<FrameStep>): Snapshot
    decreases |fs|
  {
    if fs == [] then e else Frames(Frame(e, fs[0]), fs[1..])
  }

  /** The records that the updates of `fs` retire, frame after frame. */
  function RetiredOver(e: Snapshot, fs: seq<FrameStep>): seq<Handle>
    decreases |fs|
  {
    if fs == [] then [] else Select(e.live, e.slots, fs[0], Retires) + RetiredOver(Frame(e, fs[0]), fs[1..])
  }

  /** Over several frames the pool is the old pool with every retired record
      recycled in order, as if all had retired in one frame. */
  lemma {:induction false} FramesPool(e: Snapshot, fs: seq<FrameStep>)
    ensures Frames(e, fs).pool == RecycleAll(e.pool, RetiredOver(e, fs))
    decreases |fs|
  {
    if fs != [] {
      var e1 := Frame(e, fs[0]);
      FramesPool(e1, fs[1..]);
      RecycleAllAppend(e.pool, Select(e.live, e.slots, fs[0], Retires), RetiredOver(e1, fs[1..]));
    }
  }

  /** A live list of live records has nothing to skip. */
  lemma {:induction false} NoneSkipped(hs: seq<Handle>, slots: seq<Particle>, f: FrameStep)
    requires AliveDead(slots, hs, [])
    ensures Select(hs, slots, f, Skipped) == []
    decreases |hs|
  {
    if hs != [] {
      var n := |hs| - 1;
      assert AliveDead(slots, hs[..n], []) by {
        forall i | 0 <= i < n
          ensures hs[..n][i] < |slots| && slots[hs[..n][i]].alive
        {
          assert hs[..n][i] == hs[i];
        }
      }
      NoneSkipped(hs[..n], slots, f);
    }
  }

  /** One update of a list of distinct live records: the survivors are distinct
      live records again, and survivors and retired records together are the list. */
  lemma FrameAccount(e: Snapshot, f: FrameStep)
    requires NoDup(e.live) && AliveDead(e.slots, e.live, [])
    ensures var e1 := Frame(e, f);
            NoDup(e1.live) && AliveDead(e1.slots, e1.live, [])
            && multiset(e1.live) + multiset(Select(e.live, e.slots, f, Retires)) == multiset(e.live)
  {
    var e1 := Frame(e, f);
    SelectSplit(e.live, e.slots, f);
    NoneSkipped(e.live, e.slots, f);
    NoDupSub(e1.live, e.live);
    SurvivorsAlive(e.live, e.slots, f);
  }

  /** Over any run of frames from a list of distinct live records, every record
      of the list is retired in exactly one frame or is still live at the end. */
  lemma {:induction false} FramesAccount(e: Snapshot, fs: seq<FrameStep>)
    requires NoDup(e.live) && AliveDead(e.slots, e.live, [])
    ensures multiset(RetiredOver(e, fs)) + multiset(Frames(e, fs).live) == multiset(e.live)
    decreases |fs|
  {
    if fs != [] {
      var e1 := Frame(e, fs[0]);
      var retired := Select(e.live, e.slots, fs[0], Retires);
      FrameAccount(e, fs[0]);
      FramesAccount(e1, fs[1..]);
      assert RetiredOver(e, fs) == retired + RetiredOver(e1, fs[1..]);
      assert Frames(e, fs) == Frames(e1, fs[1..]);
    }
  }

  /** When all particles of the list have passed the line after some frames, the
      list is empty and the pool has taken them all up to its capacity: starting
      from an empty pool, N particles leave min(N, 1000) pooled records. */
  lemma AllRetireOverFrames(e: Snapshot, fs: seq<FrameStep>)
    requires NoDup(e.live) && AliveDead(e.slots, e.live, []) && |e.pool| <= Capacity
    requires Frames(e, fs).live == []
    ensures |Frames(e, fs).pool| == MinInt(|e.pool| + |e.live|, Capacity)
  {
    var retired := RetiredOver(e, fs);
    FramesAccount(e, fs);
    assert multiset(retired) == multiset(e.live);
    assert |retired| == |multiset(retired)| == |multiset(e.live)| == |e.live|;
    FramesPool(e, fs);
    RecycleAllSize(e.pool, retired);
  }

  /** In `slots`, every handle of `live` addresses a live record and every handle
      of `dead` a dead one. */
  ghost predicate AliveDead(slots: seq<Particle>, live: seq<Handle>, dead: seq<Handle>) {
    (forall i :: 0 <= i < |live| ==> live[i] < |slots| && slots[live[i]].alive) &&
    (forall i :: 0 <= i < |dead| ==> dead[i] < |slots| && !slots[dead[i]].alive)
  }

  /** The records of `slots` after a burst at (x, y) with multiplier `m` from the
      records `s0`: those of the new handles `added` are live burst particles,
      every other one is untouched. */
  ghost predicate BurstRecords(slots: seq<Particle>, s0: seq<Particle>, added: seq<Handle>,
                               x: real, y: real, m: real, cos: real -> real, sin: real -> real) {
    forall h :: 0 <= h < |slots| ==>
      if h in added then slots[h].alive && Spawned(slots[h].attrs, x, y, m, cos, sin)
      else h < |s0| && slots[h] == s0[h]
  }

  /** Reusing the top record of the pool for a new live particle keeps the handles
      valid and distinct. */
  lemma ObtainReused(ps: seq<Handle>, items: seq<Handle>, n: nat)
    requires items != [] && Within(ps, n) && Within(items, n)
    requires NoDup(ps + items)
    ensures var h, rest := items[|items| - 1], items[..|items| - 1];
            Within(ps + [h], n) && Within(rest, n) && NoDup(ps + [h] + rest)
  {
    var h, rest := items[|items| - 1], items[..|items| - 1];
    assert items == rest + [h];
    assert multiset(ps + [h] + rest) == multiset(ps + items);
    NoDupSub(ps + [h] + rest, ps + items);
  }

  /** Reusing the top record of the pool for a new live particle keeps live
      records live and pooled records dead. */
  lemma ObtainReusedPartition(ps: seq<Handle>, items: seq<Handle>, slots: seq<Particle>, a: Attrs)
    requires items != [] && NoDup(ps + items) && AliveDead(slots, ps, items)
    ensures var h, rest := items[|items| - 1], items[..|items| - 1];
            AliveDead(slots[h := Particle(a, true)], ps + [h], rest)
  {
    var h, rest := items[|items| - 1], items[..|items| - 1];
    var st := slots[h := Particle(a, true)];
    NoDupApart(ps, items);
    forall i | 0 <= i < |ps|
      ensures st[ps[i]] == slots[ps[i]]
    {
      assert ps[i] in ps;
    }
    forall i | 0 <= i < |rest|
      ensures st[rest[i]] == slots[rest[i]]
    {
      NoDupAt(items, i, |items| - 1);
    }
  }

  /** Allocating a new record for a new live particle keeps the handles valid and
      distinct, and keeps live records live and pooled records dead. */
  lemma ObtainFresh(ps: seq<Handle>, items: seq<Handle>, slots: seq<Particle>, a: Attrs)
    requires Within(ps, |slots|) && Within(items, |slots|)
    requires NoDup(ps + items)
    ensures var h, st := |slots|, slots + [Particle(a, true)];
            Within(ps + [h], |st|) && Within(items, |st|) && NoDup(ps + [h] + items)
            && (AliveDead(slots, ps, items) ==> AliveDead(st, ps + [h], items))
  {
    var h := |slots|;
    assert h !in ps + items;
    NoDupAppend(ps + items, h);
    assert multiset(ps + [h] + items) == multiset(ps + items + [h]);
    NoDupSub(ps + [h] + items, ps + items + [h]);
  }

  /** One more burst particle, in the reused or newly allocated record `h`. */
  lemma BurstRecordsStep(slots: seq<Particle>, s0: seq<Particle>, added: seq<Handle>, h: Handle,
                         a: Attrs, x: real, y: real, m: real, cos: real -> real, sin: real -> real)
    requires BurstRecords(slots, s0, added, x, y, m, cos, sin)
    requires Spawned(a, x, y, m, cos, sin) && h <= |slots|
    ensures var st := if h < |slots| then slots[h := Particle(a, true)] else slots + [Particle(a, true)];
            BurstRecords(st, s0, added + [h], x, y, m, cos, sin)
  {
  }

  /** The handles of a burst after `i` particles, started from the live list `q0`
      and the pool `items0` with `lo` records allocated: the list `ps` has grown
      by the handles that `i` obtains give, the pool `items` has lost as many
      records from its top as it had, and `n` records are allocated. */
  ghost predicate BurstOrder(q0: seq<Handle>, items0: seq<Handle>, lo: nat, i: nat,
                             ps: seq<Handle>, items: seq<Handle>, n: nat) {
    var m0, taken := |items0|, MinInt(i, |items0|);
    ps == q0 + ObtainOrder(items0, lo, i) && items == items0[..m0 - taken] && n == lo + (i - taken)
  }

  /** Where a burst stands after `i` particles, started from the records `s0`:
      its handles as above, and the records of the new handles are live burst
      particles. */
  ghost predicate BurstState(q0: seq<Handle>, s0: seq<Particle>, items0: seq<Handle>, i: nat,
                             ps: seq<Handle>, items: seq<Handle>, slots: seq<Particle>,
                             x: real, y: real, m: real, cos: real -> real, sin: real -> real) {
    BurstOrder(q0, items0, |s0|, i, ps, items, |slots|)
    && BurstRecords(slots, s0, ObtainOrder(items0, |s0|, i), x, y, m, cos, sin)
  }

  /** One more particle of a burst takes the top of the pool, or a new record
      when the pool is empty. */
  lemma BurstOrderStep(q0: seq<Handle>, items0: seq<Handle>, lo: nat, i: nat,
                       ps: seq<Handle>, items: seq<Handle>, n: nat)
    requires BurstOrder(q0, items0, lo, i, ps, items, n)
    ensures items != [] ==>
              var h := items[|items| - 1];
              h == Obtained(items0, lo, i)
              && BurstOrder(q0, items0, lo, i + 1, ps + [h], items[..|items| - 1], n)
    ensures items == [] ==>
              n == Obtained(items0, lo, i) && BurstOrder(q0, items0, lo, i + 1, ps + [n], [], n + 1)
  {
  }

  /** Every particle of a burst is live and starts at the burst's origin. */
  lemma BurstAtOrigin(slots: seq<Particle>, s0: seq<Particle>, added: seq<Handle>, h: Handle,
                      x: real, y: real, m: real, cos: real -> real, sin: real -> real)
    requires BurstRecords(slots, s0, added, x, y, m, cos, sin)
    requires h in added && h < |slots|
    ensures slots[h].alive && slots[h].attrs.x == x && slots[h].attrs.y == y
  {
  }

  /** A burst leaves the records of the particles that were live before it as
      they were. */
  lemma BurstKeepsLive(q0: seq<Handle>, items0: seq<Handle>, s0: seq<Particle>, slots: seq<Particle>, k: nat,
                       x: real, y: real, m: real, cos: real -> real, sin: real -> real)
    requires Within(q0, |s0|) && NoDup(q0 + items0) && |s0| <= |slots|
    requires BurstRecords(slots, s0, ObtainOrder(items0, |s0|, k), x, y, m, cos, sin)
    ensures forall j :: 0 <= j < |q0| ==> q0[j] < |slots| && slots[q0[j]] == s0[q0[j]]
  {
    NoDupApart(q0, items0);
    forall j | 0 <= j < |q0|
      ensures q0[j] < |slots| && slots[q0[j]] == s0[q0[j]]
    {
      assert q0[j] in q0;
      if q0[j] in ObtainOrder(items0, |s0|, k) {
        ObtainOrderFrom(items0, |s0|, k, q0[j]);
      }
    }
  }

  class ConfettiEngine {
    /** Handles of the live particles, in spawn order. */
    var particles: seq<Handle>
    const pool: ParticlePool
    const arena: Arena
    var screenHeight: real
    /** Ticks once per update that had particles to move. */
    var frameCounter: nat

    /** Every handle addresses a record, and no record is held twice, neither
        within nor across the live list and the pool. */
    ghost predicate Valid()
      reads this, pool, arena
    {
      pool.Valid() && arena.Owns(particles) && arena.Owns(pool.items) && NoDup(particles + pool.items)
    }

    /** Every live particle is alive and every pooled one is dead. */
    ghost predicate Partitioned()
      reads this, pool, arena
    {
      AliveDead(arena.slots, particles, pool.items)
    }

    constructor ()
      ensures Valid() && Partitioned()
      ensures particles == [] && pool.items == [] && arena.slots == []
      ensures fresh(pool) && fresh(arena)
      ensures screenHeight == 2000.0 && frameCounter == 0
    {
      particles := [];
      pool := new ParticlePool();
      arena := new Arena();
      screenHeight := 2000.0;
      frameCounter := 0;
    }

    /** Whether any particle is on the live list. */
    function HasParticles(): (b: bool)
      reads this
      ensures b <==> particles != []
    {
      |particles| > 0
    }

    /** The attributes of a new burst particle at (x, y), from fresh random draws. */
    method DrawParticle(x: real, y: real, speedMultiplier: real, cos: real -> real, sin: real -> real)
      returns (a: Attrs)
      ensures Spawned(a, x, y, speedMultiplier, cos, sin)
      ensures a.x == x && a.y == y
    {
      assert SomeDraws.InRange();
      var d: Draws :| d.InRange();
      a := Spawn(x, y, speedMultiplier, d, cos, sin);
    }

    /** One iteration of a burst: a particle spawned at (x, y) from fresh random
        draws, in the record `h` that the pool gives, appended to the live list.
        The ghost parameters say where the burst stands: it started from the live
        list `q0`, the records `s0` and the pool `items0`, and `i` particles in. */
    method SpawnParticle(ghost q0: seq<Handle>, ghost s0: seq<Particle>, ghost items0: seq<Handle>,
                         ghost i: nat, ghost p0: bool,
                         x: real, y: real, speedMultiplier: real, cos: real -> real, sin: real -> real)
      returns (h: Handle)
      requires Valid() && (p0 ==> Partitioned())
      requires BurstState(q0, s0, items0, i, particles, pool.items, arena.slots,
                          x, y, speedMultiplier, cos, sin)
      modifies this`particles, pool, arena
      ensures Valid() && (p0 ==> Partitioned())
      ensures BurstState(q0, s0, items0, i + 1, particles, pool.items, arena.slots,
                         x, y, speedMultiplier, cos, sin)
      ensures particles == old(particles) + [h]
      ensures h < |arena.slots| && arena.slots[h].alive
      ensures Spawned(arena.slots[h].attrs, x, y, speedMultiplier, cos, sin)
    {
      var a := DrawParticle(x, y, speedMultiplier, cos, sin);
      ghost var ps, items, slots := particles, pool.items, arena.slots;
      BurstOrderStep(q0, items0, |s0|, i, ps, items, |slots|);
      h := pool.Obtain(arena, a);
      particles := particles + [h];
      if items != [] {
        assert h == items[|items| - 1] && pool.items == items[..|items| - 1];
        assert arena.slots == slots[h := Particle(a, true)];
        ObtainReused(ps, items, |slots|);
        if p0 {
          ObtainReusedPartition(ps, items, slots, a);
        }
      } else {
        assert h == |slots| && pool.items == [] && arena.slots == slots + [Particle(a, true)];
        ObtainFresh(ps, items, slots, a);
      }
      BurstRecordsStep(slots, s0, ObtainOrder(items0, |s0|, i), h, a, x, y, speedMultiplier, cos, sin);
    }

    /** Adds a burst of confetti at (x, y): a count in [first, last] is drawn, and
        each new particle is spawned from fresh random draws into the record on
        top of the pool, or a newly allocated one when the pool is empty, and
        appended to the live list. `cos` and `sin` stand for the trigonometric
        functions. */
    method AddBurst(x: real, y: real, first: int, last: int, speedMultiplier: real,
                    cos: real -> real, sin: real -> real)
      requires Valid() && first <= last
      modifies this`particles, pool, arena
      ensures Valid()
      ensures old(Partitioned()) ==> Partitioned()
      ensures |old(particles)| <= |particles|
      ensures Max(first, 0) <= |particles| - |old(particles)| <= Max(last, 0)
      ensures var added, m0 := |particles| - |old(particles)|, |old(pool.items)|;
              particles == old(particles) + ObtainOrder(old(pool.items), |old(arena.slots)|, added)
              && pool.items == old(pool.items)[..m0 - MinInt(added, m0)]
              && |arena.slots| == |old(arena.slots)| + (added - MinInt(added, m0))
      ensures BurstRecords(arena.slots, old(arena.slots), particles[|old(particles)|..],
                           x, y, speedMultiplier, cos, sin)
      ensures forall j :: 0 <= j < |old(particles)| ==>
                arena.slots[old(particles)[j]] == old(arena.slots)[old(particles)[j]]
    {
      var count :| first <= count <= last;
      ghost var q0, s0, items0 := particles, arena.slots, pool.items;
      SpawnAll(count, x, y, speedMultiplier, cos, sin);
      BurstKeepsLive(q0, items0, s0, arena.slots, Max(count, 0), x, y, speedMultiplier, cos, sin);
    }

    /** The loop of a burst: `count` particles, none when `count` is not positive. */
    method SpawnAll(count: int, x: real, y: real, speedMultiplier: real,
                    cos: real -> real, sin: real -> real)
      requires Valid()
      modifies this`particles, pool, arena
      ensures Valid() && (old(Partitioned()) ==> Partitioned())
      ensures BurstState(old(particles), old(arena.slots), old(pool.items), Max(count, 0),
                         particles, pool.items, arena.slots, x, y, speedMultiplier, cos, sin)
    {
      ghost var q0, s0, items0, p0 := particles, arena.slots, pool.items, Partitioned();
      var i := 0;
      while i < count
        modifies this`particles, pool, arena
        invariant 0 <= i <= Max(count, 0)
        invariant Valid() && (p0 ==> Partitioned())
        invariant BurstState(q0, s0, items0, i, particles, pool.items, arena.slots,
                             x, y, speedMultiplier, cos, sin)
      {
        var h := SpawnParticle(q0, s0, items0, i, p0, x, y, speedMultiplier, cos, sin);
        i := i + 1;
      }
    }

    /** The body of the update loop for position `readIndex`: a dead particle is
        passed over; a live one is moved through the frame and then either
        retired into the pool, when it is below `screenBottom`, or written to
        position `writeIndex`, the next free place of the compacted list. */
    method StepParticle(readIndex: nat, writeIndex: nat, dt: real, screenBottom: real,
                        exp: real -> real, sin: real -> real) returns (next: nat)
      requires writeIndex <= readIndex < |particles| && particles[readIndex] < |arena.slots|
      requires pool.Valid() && arena.Owns(pool.items)
      modifies this`particles, pool, arena
      ensures pool.Valid() && arena.Owns(pool.items)
      ensures var h := old(particles[readIndex]);
              !old(arena.slots[h].alive) ==>
                next == writeIndex && particles == old(particles)
                && pool.items == old(pool.items) && arena.slots == old(arena.slots)
      ensures var h := old(particles[readIndex]);
              var a := Advance(old(arena.slots[h].attrs), dt, exp, sin);
              old(arena.slots[h].alive) && a.y > screenBottom ==>
                next == writeIndex && particles == old(particles)
                && pool.items == Push(old(pool.items), h)
                && arena.slots == old(arena.slots)[h := Particle(a, false)]
      ensures var h := old(particles[readIndex]);
              var a := Advance(old(arena.slots[h].attrs), dt, exp, sin);
              old(arena.slots[h].alive) && a.y <= screenBottom ==>
                next == writeIndex + 1 && particles == old(particles)[writeIndex := h]
                && pool.items == old(pool.items)
                && arena.slots == old(arena.slots)[h := Particle(a, true)]
    {
      next := writeIndex;
      var h := particles[readIndex];
      if !arena.slots[h].alive {
        return;
      }
      var p := arena.slots[h];
      p := p.(attrs := Advance(p.attrs, dt, exp, sin));
      if p.attrs.y > screenBottom {
        p := p.(alive := false);
        arena.slots := arena.slots[h := p];
        assert arena.slots[h := arena.slots[h].(alive := false)] == arena.slots;
        pool.Recycle(arena, h);
      } else {
        arena.slots := arena.slots[h := p];
        if writeIndex != readIndex {
          particles := particles[writeIndex := h];
        } else {
          assert particles[writeIndex := h] == particles;
        }
        next := writeIndex + 1;
      }
    }

    /** The first pass of an update: moves every live particle through one frame
        of `dt` seconds, retires into the pool those that end below
        `screenBottom`, and writes the survivors, in their order, to the front of
        the list; `writeIndex` is the number of survivors. */
    method MoveAll(dt: real, screenBottom: real, exp: real -> real, sin: real -> real) returns (writeIndex: nat)
      requires pool.Valid() && arena.Owns(particles) && arena.Owns(pool.items) && NoDup(particles)
      modifies this`particles, pool, arena
      ensures pool.Valid() && arena.Owns(pool.items)
      ensures |particles| == |old(particles)| && writeIndex <= |particles|
      ensures var f := FrameStep(dt, screenBottom, exp, sin);
              particles[..writeIndex] == Select(old(particles), old(arena.slots), f, Survives)
              && pool.items == RecycleAll(old(pool.items), Select(old(particles), old(arena.slots), f, Retires))
              && arena.slots == Stepped(old(arena.slots), old(particles), f)
    {
      ghost var f := FrameStep(dt, screenBottom, exp, sin);
      ghost var q0, s0, items0 := particles, arena.slots, pool.items;
      var n := |particles|;
      writeIndex := 0;
      ghost var kept: seq<Handle> := [];
      ghost var retired: seq<Handle> := [];
      for readIndex := 0 to n
        invariant writeIndex <= readIndex
        invariant |particles| == n
        invariant particles[..writeIndex] == kept
        invariant kept == Select(q0[..readIndex], s0, f, Survives)
        invariant forall j :: readIndex <= j < n ==> particles[j] == q0[j]
        invariant pool.Valid() && arena.Owns(pool.items)
        invariant retired == Select(q0[..readIndex], s0, f, Retires)
        invariant pool.items == RecycleAll(items0, retired)
        invariant arena.slots == Stepped(s0, q0[..readIndex], f)
      {
        ghost var h := particles[readIndex];
        NoDupFirst(q0, readIndex);
        SteppedOutside(s0, q0[..readIndex], f, h);
        ghost var a := Advance(s0[h].attrs, dt, exp, sin);
        if !s0[h].alive {
          UpdateSkips(q0, s0, f, readIndex);
        } else if a.y > screenBottom {
          UpdateRetires(q0, s0, f, readIndex);
          RecycleAllSnoc(items0, retired, h);
          retired := retired + [h];
        } else {
          UpdateKeeps(q0, s0, f, readIndex);
          WriteTake(particles, writeIndex, h);
          kept := kept + [h];
        }
        writeIndex := StepParticle(readIndex, writeIndex, dt, screenBottom, exp, sin);
      }
      assert q0[..n] == q0;
    }

    /** Moves every live particle through one frame, retires into the pool those
        that passed the bottom line, compacts the survivors to the front of the
        list in their order, and ticks the frame counter. Does nothing without
        particles. `exp` and `sin` stand for the exponential and sine functions. */
    method Update(deltaNanos: int, exp: real -> real, sin: real -> real)
      requires Valid()
      modifies this`particles, this`frameCounter, pool, arena
      ensures Valid()
      ensures old(Partitioned()) ==> Partitioned()
      ensures old(particles) == [] ==>
                particles == [] && pool.items == old(pool.items)
                && arena.slots == old(arena.slots) && frameCounter == old(frameCounter)
      ensures old(particles) != [] ==> frameCounter == old(frameCounter) + 1
      ensures var f := FrameStep(FrameDt(deltaNanos), old(screenHeight) + ScreenMargin, exp, sin);
              particles == Select(old(particles), old(arena.slots), f, Survives)
              && pool.items == RecycleAll(old(pool.items), Select(old(particles), old(arena.slots), f, Retires))
              && arena.slots == Stepped(old(arena.slots), old(particles), f)
    {
      if particles == [] {
        ghost var f := FrameStep(FrameDt(deltaNanos), screenHeight + ScreenMargin, exp, sin);
        assert Stepped(arena.slots, particles, f) == arena.slots;
        return;
      }
      var dt := FrameDt(deltaNanos);
      var screenBottom := screenHeight + ScreenMargin;
      ghost var f := FrameStep(dt, screenBottom, exp, sin);
      ghost var q0, s0, items0 := particles, arena.slots, pool.items;
      assert NoDup(q0) by {
        NoDupApart(q0, items0);
      }
      var writeIndex := MoveAll(dt, screenBottom, exp, sin);
      ghost var kept := particles[..writeIndex];
      while |particles| > writeIndex
        modifies this`particles
        invariant writeIndex <= |particles|
        invariant particles[..writeIndex] == kept
      {
        particles := particles[..|particles| - 1];
      }
      frameCounter := frameCounter + 1;
      assert q0 == old(particles) && s0 == old(arena.slots) && items0 == old(pool.items);
      assert particles == Select(q0, s0, f, Survives);
      assert pool.items == RecycleAll(items0, Select(q0, s0, f, Retires));
      assert arena.slots == Stepped(s0, q0, f);
      UpdateKeepsValid(q0, s0, f, items0);
      if old(Partitioned()) {
        UpdateKeepsPartition(q0, s0, f, items0);
      }
    }
  }
}
