/**
 * The lateral grid and its position allocator (`generateObjectPos` in main.js).
 * A grid with half-extent `d` has the nine points {-d, 0, d} x {-d, 0, d}.
 */
module Grid {
  import opened Options
  import Draw

  /** The half-extent the game uses (`dim`). */
  const Dim: int := 6

  datatype Pos = Pos(x: int, y: int)

  predicate OnAxis(d: int, v: int) {
    v == -d || v == 0 || v == d
  }

  /** A point of the 3x3 lattice of half-extent `d`. */
  predicate IsLatticePoint(d: int, p: Pos) {
    OnAxis(d, p.x) && OnAxis(d, p.y)
  }

  /** The grid in the order the nested loops build it: x outer, y inner. */
  function Lattice(d: int): (g: seq<Pos>)
    ensures |g| == 9
  {
    var arr := [-d, 0, d];
    seq(9, k requires 0 <= k < 9 => Pos(arr[k / 3], arr[k % 3]))
  }

  /** The nested loops produce exactly the lattice points, nothing else. */
  lemma LatticeIsTheGrid(d: int, p: Pos)
    ensures p in Lattice(d) <==> IsLatticePoint(d, p)
  {
    var g := Lattice(d);
    if IsLatticePoint(d, p) {
      var i := if p.x == -d then 0 else if p.x == 0 then 1 else 2;
      var j := if p.y == -d then 0 else if p.y == 0 then 1 else 2;
      assert g[3 * i + j] == p;
    }
  }

  /** With a non-zero half-extent the nine grid cells are pairwise distinct. */
  lemma LatticeDistinct(d: int)
    requires d != 0
    ensures forall i, j :: 0 <= i < j < 9 ==> Lattice(d)[i] != Lattice(d)[j]
  {
  }

  /** The `grid.filter(...)` step: keeps, in order, the cells not listed in `used`. */
  function Without(grid: seq<Pos>, used: seq<Pos>): (r: seq<Pos>)
    ensures |r| <= |grid|
    ensures forall p :: p in r <==> p in grid && p !in used
  {
    if |grid| == 0 then []
    else (if grid[0] in used then [] else [grid[0]]) + Without(grid[1..], used)
  }

  /** The cells a draw chooses from; an absent `usedPositions` keeps the whole grid. */
  function Available(d: int, used: Option<seq<Pos>>): seq<Pos> {
    match used
    case None => Lattice(d)
    case Some(u) => Without(Lattice(d), u)
  }

  /** Is `p` excluded by the (possibly absent) list of used positions? */
  predicate Excluded(used: Option<seq<Pos>>, p: Pos) {
    used.Some? && p in used.value
  }

  lemma AvailableMembers(d: int, used: Option<seq<Pos>>, p: Pos)
    ensures p in Available(d, used) <==> IsLatticePoint(d, p) && !Excluded(used, p)
  {
    LatticeIsTheGrid(d, p);
  }

  /**
   * `generateObjectPos(dim, usedPositions)`: the cell at index `floor(r * n)` of
   * the `n` available cells; `None` (JavaScript `undefined`) when none is left.
   */
  function GenerateObjectPos(d: int, used: Option<seq<Pos>>, r: real): (p: Option<Pos>)
    requires Draw.IsDraw(r)
    ensures p.Some? ==> IsLatticePoint(d, p.value) && !Excluded(used, p.value)
    ensures p.None? <==> forall q :: IsLatticePoint(d, q) ==> Excluded(used, q)
  {
    var avail := Available(d, used);
    var i := Draw.Index(r, |avail|);
    if i < |avail| then
      AvailableMembers(d, used, avail[i]);
      var q0 := avail[i];
      assert IsLatticePoint(d, q0) && !Excluded(used, q0);
      Some(avail[i])
    else
      assert forall q :: IsLatticePoint(d, q) ==> Excluded(used, q) by {
        forall q | IsLatticePoint(d, q)
          ensures Excluded(used, q)
        {
          AvailableMembers(d, used, q);
        }
      }
      None
  }

  /** Without exclusions all nine cells of a non-degenerate grid are eligible. */
  lemma NoExclusionsAllNine(d: int)
    requires d != 0
    ensures |Available(d, None)| == 9
    ensures forall i, j :: 0 <= i < j < |Available(d, None)| ==> Available(d, None)[i] != Available(d, None)[j]
    ensures forall q :: IsLatticePoint(d, q) ==> q in Available(d, None)
  {
    LatticeDistinct(d);
    forall q | IsLatticePoint(d, q)
      ensures q in Available(d, None)
    {
      LatticeIsTheGrid(d, q);
    }
  }

  /** Every free lattice cell is returned for some draw: the allocator can reach all of them. */
  lemma GenerateObjectPosReaches(d: int, used: Option<seq<Pos>>, q: Pos)
    requires IsLatticePoint(d, q) && !Excluded(used, q)
    ensures exists r :: Draw.IsDraw(r) && GenerateObjectPos(d, used, r) == Some(q)
  {
    var avail := Available(d, used);
    AvailableMembers(d, used, q);
    var i :| 0 <= i < |avail| && avail[i] == q;
    Draw.IndexReaches(|avail|, i);
    var r := i as real / |avail| as real;
    assert GenerateObjectPos(d, used, r) == Some(q);
  }
}
