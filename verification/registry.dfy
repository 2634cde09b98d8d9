/**
 * The object registry `allObjects` of main.js: chunk placement
 * (`_generateChunks` with `_addModel`) and the per-frame advance/cull pass
 * (`_RAFAirObjects`). Depth `z` grows towards the camera; more negative is
 * further away.
 */
module Registry {
  import opened Grid
  import opened Catalog

  /** A placed clone: its kind, lateral cell, depth and the two flags the cull pass keeps. */
  datatype AirObject = AirObject(kind: Kind, pos: Pos, z: real, visible: bool, crossed: bool)

  type Objects = seq<AirObject>

  /** Depth distance between consecutive slices of a chunk. */
  const SliceSpacing: real := 18.0

  /** The depth `_generateChunks` assumes when the registry is empty. */
  const EmptyDepth: real := -18.0

  /** A fresh clone of the entry's model: visible, not yet past the threshold. */
  function Spawn(e: Entry, z: real): AirObject {
    AirObject(e.kind, e.pos, z, true, false)
  }

  /** The depth of the most recently appended object, or `EmptyDepth`. */
  function LastDepth(objs: Objects): real {
    if |objs| == 0 then EmptyDepth else objs[|objs| - 1].z
  }

  /** The depth of slice `i` as `_generateChunks` writes it. */
  function SliceDepth(lastZ: real, i: nat): real {
    -(i as real) * SliceSpacing - SliceSpacing + lastZ
  }

  /** Number of entries in a chunk, over all its slices. */
  function Size(c: Chunk): nat {
    if |c| == 0 then 0 else Size(c[..|c| - 1]) + |c[|c| - 1]|
  }

  /** Where the objects of slice `i` begin among the chunk's placed objects. */
  function Offset(c: Chunk, i: nat): nat
    requires i <= |c|
  {
    Size(c[..i])
  }

  function SliceObjects(s: Slice, z: real): Objects {
    seq(|s|, j requires 0 <= j < |s| => Spawn(s[j], z))
  }

  /**
   * The objects the two nested `forEach` loops append, slice by slice and entry
   * by entry; all lie between one and `|c|` spacings behind `lastZ`.
   */
  function ChunkObjects(c: Chunk, lastZ: real): (r: Objects)
    ensures |r| == Size(c)
    ensures forall k :: 0 <= k < |r| ==> lastZ - SliceSpacing * |c| as real <= r[k].z <= lastZ - SliceSpacing
  {
    if |c| == 0 then []
    else ChunkObjects(c[..|c| - 1], lastZ) + SliceObjects(c[|c| - 1], SliceDepth(lastZ, |c| - 1))
  }

  /** Entry `j` of slice `i` becomes object `Offset(c, i) + j`, at `i + 1` spacings behind `lastZ`. */
  lemma {:induction false} ChunkLayout(c: Chunk, lastZ: real, i: nat, j: nat)
    requires i < |c| && j < |c[i]|
    ensures Offset(c, i) + j < Size(c)
    ensures ChunkObjects(c, lastZ)[Offset(c, i) + j] == Spawn(c[i][j], lastZ - SliceSpacing * (i + 1) as real)
  {
    var n := |c| - 1;
    var front := c[..n];
    assert c[..n + 1] == c;
    if i < n {
      assert front[..i] == c[..i];
      assert front[i] == c[i];
      ChunkLayout(front, lastZ, i, j);
    } else {
      assert Offset(c, i) == |ChunkObjects(front, lastZ)|;
    }
  }

  /** Object `base + Offset(c, i) + j` of `r` is entry `j` of slice `i`, placed `i + 1` spacings behind `lastZ`. */
  predicate PlacedAt(r: Objects, base: nat, c: Chunk, lastZ: real, i: nat, j: nat)
    requires i < |c| && j < |c[i]|
  {
    base + Offset(c, i) + j < |r| && r[base + Offset(c, i) + j] == Spawn(c[i][j], lastZ - SliceSpacing * (i + 1) as real)
  }

  /**
   * `_generateChunks(positions)`: while models are loading `_addModel` drops every
   * entry; otherwise one object per entry is appended, in slice-then-entry order,
   * keeping the entry's kind and cell and placed `i + 1` spacings behind the
   * registry's last depth.
   */
  function GenerateChunks(objs: Objects, loading: bool, c: Chunk): (r: Objects)
    ensures loading ==> r == objs
    ensures !loading ==> |r| == |objs| + Size(c) && r[..|objs|] == objs
    ensures !loading ==> forall i: nat, j: nat :: i < |c| && j < |c[i]| ==> PlacedAt(r, |objs|, c, LastDepth(objs), i, j)
  {
    if loading then objs
    else
      AppendLayout(objs, c);
      objs + ChunkObjects(c, LastDepth(objs))
  }

  /** `_addModel` ignores every entry until loading has finished. */
  lemma LoadingAddsNothing(objs: Objects, c: Chunk)
    ensures GenerateChunks(objs, true, c) == objs
    ensures |c| > 0 && |c[0]| > 0 ==> |GenerateChunks(objs, false, c)| > |objs|
  {
    if |c| > 0 && |c[0]| > 0 {
      assert PlacedAt(GenerateChunks(objs, false, c), |objs|, c, LastDepth(objs), 0, 0);
    }
  }

  lemma AppendLayout(objs: Objects, c: Chunk)
    ensures forall i: nat, j: nat :: i < |c| && j < |c[i]| ==>
      PlacedAt(objs + ChunkObjects(c, LastDepth(objs)), |objs|, c, LastDepth(objs), i, j)
  {
    var added := ChunkObjects(c, LastDepth(objs));
    forall i: nat, j: nat | i < |c| && j < |c[i]|
      ensures PlacedAt(objs + added, |objs|, c, LastDepth(objs), i, j)
    {
      ChunkLayout(c, LastDepth(objs), i, j);
      assert (objs + added)[|objs| + Offset(c, i) + j] == added[Offset(c, i) + j];
    }
  }

  /** The nearest slice of a new chunk lies exactly one spacing behind the previous last object. */
  lemma NoGap(objs: Objects, c: Chunk)
    requires |objs| > 0 && |c| > 0 && |c[0]| > 0
    ensures var r := GenerateChunks(objs, false, c); |objs| < |r| && r[|objs|].z == objs[|objs| - 1].z - SliceSpacing
  {
    assert PlacedAt(GenerateChunks(objs, false, c), |objs|, c, LastDepth(objs), 0, 0);
    assert c[..0] == [];
  }

  /** Objects appear in spawn order: each is at least as far from the camera as the one before. */
  predicate DepthOrdered(objs: Objects) {
    forall k :: 0 < k < |objs| ==> objs[k].z <= objs[k - 1].z
  }

  /** Neighbour ordering gives ordering between any two objects. */
  lemma {:induction false} DepthOrderedPairwise(objs: Objects, i: nat, j: nat)
    requires DepthOrdered(objs)
    requires i <= j < |objs|
    ensures objs[j].z <= objs[i].z
    decreases j - i
  {
    if i < j {
      DepthOrderedPairwise(objs, i, j - 1);
    }
  }

  lemma DepthOrderedAppend(a: Objects, b: Objects)
    requires DepthOrdered(a) && DepthOrdered(b)
    requires |a| > 0 && |b| > 0 ==> b[0].z <= a[|a| - 1].z
    ensures DepthOrdered(a + b)
  {
    var s := a + b;
    forall k | 0 < k < |s|
      ensures s[k].z <= s[k - 1].z
    {
      if k > |a| {
        assert s[k] == b[k - |a|] && s[k - 1] == b[k - 1 - |a|];
      }
    }
  }

  /** The objects of one chunk are placed in non-increasing depth. */
  lemma {:induction false} ChunkObjectsOrdered(c: Chunk, lastZ: real)
    ensures DepthOrdered(ChunkObjects(c, lastZ))
  {
    if |c| > 0 {
      var n := |c| - 1;
      var front := ChunkObjects(c[..n], lastZ);
      ChunkObjectsOrdered(c[..n], lastZ);
      DepthOrderedAppend(front, SliceObjects(c[n], SliceDepth(lastZ, n)));
    }
  }

  /** Placement keeps the registry in depth order: every new object lies behind every old one. */
  lemma GenerateChunksOrdered(objs: Objects, loading: bool, c: Chunk)
    requires DepthOrdered(objs)
    ensures DepthOrdered(GenerateChunks(objs, loading, c))
  {
    if !loading {
      ChunkObjectsOrdered(c, LastDepth(objs));
      DepthOrderedAppend(objs, ChunkObjects(c, LastDepth(objs)));
    }
  }

  /** Every object stands on a cell of the lateral lattice. */
  predicate OnLattice(objs: Objects) {
    forall k :: 0 <= k < |objs| ==> IsLatticePoint(Dim, objs[k].pos)
  }

  predicate ChunkOnLattice(c: Chunk) {
    forall i, j :: 0 <= i < |c| && 0 <= j < |c[i]| ==> IsLatticePoint(Dim, c[i][j].pos)
  }

  lemma {:induction false} ChunkObjectsOnLattice(c: Chunk, lastZ: real)
    requires ChunkOnLattice(c)
    ensures OnLattice(ChunkObjects(c, lastZ))
  {
    if |c| > 0 {
      var n := |c| - 1;
      assert ChunkOnLattice(c[..n]) by {
        forall i, j | 0 <= i < n && 0 <= j < |c[..n][i]|
          ensures IsLatticePoint(Dim, c[..n][i][j].pos)
        {
          assert c[..n][i] == c[i];
        }
      }
      ChunkObjectsOnLattice(c[..n], lastZ);
    }
  }

  /** Placing a catalog template keeps every object on the lattice. */
  lemma GenerateChunksOnLattice(objs: Objects, loading: bool, n: ChunkName)
    requires OnLattice(objs)
    ensures OnLattice(GenerateChunks(objs, loading, Template(n)))
  {
    CatalogWellAuthored(n);
    ChunkObjectsOnLattice(Template(n), LastDepth(objs));
  }

  // ---------------------------------------------------------------------------
  // The advance/cull pass.

  /** The fixed step every object moves towards the camera per frame. */
  const Speed: real := 0.1

  /** Past this depth an object is hidden and marked as crossed. */
  function CullDepth(k: Kind): real {
    if k == PlaneObstacle then 100.0 else 10.0
  }

  /** The per-object body of the `forEach` in `_RAFAirObjects`. */
  function AdvanceOne(o: AirObject): (r: AirObject)
    ensures r.kind == o.kind && r.pos == o.pos && r.z == o.z + Speed
    ensures r.z > CullDepth(o.kind) ==> !r.visible && r.crossed
    ensures r.z <= 0.0 ==> r.visible && !r.crossed
    ensures 0.0 < r.z <= CullDepth(o.kind) ==> r.visible == o.visible && r.crossed == o.crossed
  {
    var moved := o.(z := o.z + Speed);
    if moved.z > 10.0 then
      if o.kind == PlaneObstacle then
        if moved.z > 100.0 then moved.(visible := false, crossed := true) else moved
      else
        moved.(visible := false, crossed := true)
    else if moved.z <= 0.0 then
      moved.(visible := true, crossed := false)
    else
      moved
  }

  /** The registry after one pass: same length, same order, every object one step nearer. */
  function Advance(objs: Objects): (r: Objects)
    ensures |r| == |objs|
    ensures forall k :: 0 <= k < |r| ==> r[k].kind == objs[k].kind && r[k].pos == objs[k].pos && r[k].z == objs[k].z + Speed
  {
    seq(|objs|, k requires 0 <= k < |objs| => AdvanceOne(objs[k]))
  }

  /** A plane and any other kind at the same depth: between 10 and 100 only the other is culled. */
  lemma PlaneCullsLater(o: AirObject, k: Kind)
    requires o.kind == PlaneObstacle && k != PlaneObstacle
    requires 10.0 < o.z + Speed <= 100.0
    ensures AdvanceOne(o).visible == o.visible && AdvanceOne(o).crossed == o.crossed
    ensures !AdvanceOne(o.(kind := k)).visible && AdvanceOne(o.(kind := k)).crossed
  {
  }

  lemma AdvanceOrdered(objs: Objects)
    requires DepthOrdered(objs)
    ensures DepthOrdered(Advance(objs))
  {
  }

  lemma AdvanceOnLattice(objs: Objects)
    requires OnLattice(objs)
    ensures OnLattice(Advance(objs))
  {
  }

  /** The condition under which the pass records an object's index for removal. */
  predicate Culled(o: AirObject) {
    o.z > CullDepth(o.kind)
  }

  /** The `indexes` list: positions of culled objects, pushed in ascending order. */
  function CulledIndexes(objs: Objects): (r: seq<nat>)
    ensures forall k :: 0 <= k < |r| ==> r[k] < |objs| && Culled(objs[r[k]])
    ensures forall k, l :: 0 <= k < l < |r| ==> r[k] < r[l]
    ensures forall k :: 0 <= k < |objs| && Culled(objs[k]) ==> k in r
  {
    if |objs| == 0 then []
    else
      var n := |objs| - 1;
      assert forall i :: 0 <= i < n ==> objs[..n][i] == objs[i];
      CulledIndexes(objs[..n]) + (if Culled(objs[n]) then [n] else [])
  }

  function Reverse<T>(s: seq<T>): (r: seq<T>)
    ensures |r| == |s|
  {
    if |s| == 0 then [] else [s[|s| - 1]] + Reverse(s[..|s| - 1])
  }

  lemma {:induction false} ReverseIndex<T>(s: seq<T>, k: nat)
    requires k < |s|
    ensures Reverse(s)[k] == s[|s| - 1 - k]
  {
    if k > 0 {
      ReverseIndex(s[..|s| - 1], k - 1);
    }
  }

  /** `Array.prototype.splice(i, 1)`: an index past the end removes nothing. */
  function Splice<T>(s: seq<T>, i: nat): seq<T> {
    if i < |s| then s[..i] + s[i + 1..] else s
  }

  /** Applies `splice(i, 1)` for each index in turn. */
  function SpliceEach<T>(s: seq<T>, idxs: seq<nat>): seq<T>
    decreases |idxs|
  {
    if |idxs| == 0 then s else SpliceEach(Splice(s, idxs[0]), idxs[1..])
  }

  /** `splice(i, 1)` removes exactly the element at `i` when `i` is in range, nothing otherwise. */
  lemma SpliceRemovesOne<T>(s: seq<T>, i: nat)
    ensures i < |s| ==> |Splice(s, i)| == |s| - 1 && multiset(Splice(s, i)) + multiset{s[i]} == multiset(s)
    ensures i >= |s| ==> Splice(s, i) == s
  {
    if i < |s| {
      assert s == s[..i] + [s[i]] + s[i + 1..];
    }
  }

  /** Each splice removes at most one element and never adds one. */
  lemma {:induction false} SpliceEachShrinks<T>(s: seq<T>, idxs: seq<nat>)
    ensures multiset(SpliceEach(s, idxs)) <= multiset(s)
    ensures |s| - |idxs| <= |SpliceEach(s, idxs)| <= |s|
    decreases |idxs|
  {
    if |idxs| > 0 {
      SpliceRemovesOne(s, idxs[0]);
      SpliceEachShrinks(Splice(s, idxs[0]), idxs[1..]);
    }
  }

  /** The objects that are not culled, in order. */
  function Survivors(objs: Objects): Objects {
    if |objs| == 0 then []
    else Survivors(objs[..|objs| - 1]) + (if Culled(objs[|objs| - 1]) then [] else [objs[|objs| - 1]])
  }

  /** The copy `airObjects` after the reversed `indexes` are spliced out of it. */
  function PrunedCopy(advanced: Objects): Objects {
    SpliceEach(advanced, Reverse(CulledIndexes(advanced)))
  }

  /** The pruned copy holds only objects of its input, at most one per recorded index removed. */
  lemma PrunedCopyWithin(advanced: Objects)
    ensures multiset(PrunedCopy(advanced)) <= multiset(advanced)
    ensures |advanced| - |CulledIndexes(advanced)| <= |PrunedCopy(advanced)| <= |advanced|
  {
    SpliceEachShrinks(advanced, Reverse(CulledIndexes(advanced)));
  }

  /** Splicing out strictly descending indexes below `|s|` leaves a trailing element in place. */
  lemma {:induction false} SpliceEachAppend<T>(s: seq<T>, x: T, idxs: seq<nat>)
    requires forall k :: 0 <= k < |idxs| ==> idxs[k] < |s|
    requires forall k, l :: 0 <= k < l < |idxs| ==> idxs[k] > idxs[l]
    ensures SpliceEach(s + [x], idxs) == SpliceEach(s, idxs) + [x]
    decreases |idxs|
  {
    if |idxs| > 0 {
      var i := idxs[0];
      assert Splice(s + [x], i) == Splice(s, i) + [x];
      SpliceEachAppend(Splice(s, i), x, idxs[1..]);
    }
  }

  lemma ReverseSnoc<T>(s: seq<T>, x: T)
    ensures Reverse(s + [x]) == [x] + Reverse(s)
  {
    assert (s + [x])[..|s|] == s;
  }

  /** The last object either adds its own index to the end of the list or nothing. */
  lemma CulledIndexesSnoc(objs: Objects)
    requires |objs| > 0
    ensures var n := |objs| - 1;
      CulledIndexes(objs) == CulledIndexes(objs[..n]) + (if Culled(objs[n]) then [n] else [])
  {
  }

  lemma SnocSplit<T>(s: seq<T>)
    requires |s| > 0
    ensures s == s[..|s| - 1] + [s[|s| - 1]]
  {
  }

  /** Splicing the last index of a sequence drops its last element. */
  lemma SpliceLast<T>(s: seq<T>)
    requires |s| > 0
    ensures Splice(s, |s| - 1) == s[..|s| - 1]
  {
  }

  /** Reversing an ascending index list gives a descending one with the same bound. */
  lemma ReverseDescending(idx: seq<nat>, bound: nat)
    requires forall k :: 0 <= k < |idx| ==> idx[k] < bound
    requires forall k, l :: 0 <= k < l < |idx| ==> idx[k] < idx[l]
    ensures forall k :: 0 <= k < |Reverse(idx)| ==> Reverse(idx)[k] < bound
    ensures forall k, l :: 0 <= k < l < |Reverse(idx)| ==> Reverse(idx)[k] > Reverse(idx)[l]
  {
    var r := Reverse(idx);
    forall k, l | 0 <= k < l < |r|
      ensures r[k] > r[l]
    {
      ReverseIndex(idx, k);
      ReverseIndex(idx, l);
    }
    forall k | 0 <= k < |r|
      ensures r[k] < bound
    {
      ReverseIndex(idx, k);
    }
  }

  /** Removing the recorded indexes, highest first, removes exactly the culled objects. */
  lemma {:induction false} PrunedCopyIsSurvivors(objs: Objects)
    ensures PrunedCopy(objs) == Survivors(objs)
  {
    if |objs| > 0 {
      var n := |objs| - 1;
      PrunedCopyIsSurvivors(objs[..n]);
      CulledIndexesSnoc(objs);
      if Culled(objs[n]) {
        PrunedCopyCulledLast(objs);
      } else {
        PrunedCopyKeptLast(objs);
      }
    }
  }

  /** A culled last object: its index comes first in the reversed list and splices it off. */
  lemma PrunedCopyCulledLast(objs: Objects)
    requires |objs| > 0 && Culled(objs[|objs| - 1])
    requires CulledIndexes(objs) == CulledIndexes(objs[..|objs| - 1]) + [|objs| - 1]
    ensures PrunedCopy(objs) == PrunedCopy(objs[..|objs| - 1])
  {
    SpliceReversedSnoc(objs, CulledIndexes(objs[..|objs| - 1]));
  }

  /** Splicing the last index first drops the last element, then the rest proceeds as before. */
  lemma SpliceReversedSnoc<T>(s: seq<T>, idx: seq<nat>)
    requires |s| > 0
    ensures var n: nat := |s| - 1; SpliceEach(s, Reverse(idx + [n])) == SpliceEach(s[..n], Reverse(idx))
  {
    var n: nat := |s| - 1;
    var rest := Reverse(idx);
    ReverseSnoc(idx, n);
    SpliceLast(s);
    assert SpliceEach(s, [n] + rest) == SpliceEach(Splice(s, n), rest);
  }

  /** A kept last object stays last while the lower indexes are spliced out. */
  lemma PrunedCopyKeptLast(objs: Objects)
    requires |objs| > 0
    requires CulledIndexes(objs) == CulledIndexes(objs[..|objs| - 1])
    ensures PrunedCopy(objs) == PrunedCopy(objs[..|objs| - 1]) + [objs[|objs| - 1]]
  {
    var n := |objs| - 1;
    var idx := CulledIndexes(objs[..n]);
    SnocSplit(objs);
    SpliceReversedAppend(objs[..n], objs[n], idx);
  }

  lemma SpliceReversedAppend<T>(s: seq<T>, x: T, idx: seq<nat>)
    requires forall k :: 0 <= k < |idx| ==> idx[k] < |s|
    requires forall k, l :: 0 <= k < l < |idx| ==> idx[k] < idx[l]
    ensures SpliceEach(s + [x], Reverse(idx)) == SpliceEach(s, Reverse(idx)) + [x]
  {
    ReverseDescending(idx, |s|);
    SpliceEachAppend(s, x, Reverse(idx));
  }
}
