/**
 * The chunk catalog: the eight obstacle layouts `chunkA` .. `chunkH` that
 * `_chooseChunks` builds (main.js). A chunk is three depth slices; each slice
 * lists (kind, lateral position) entries.
 */
module Catalog {
  import opened Grid

  /** The model kinds a chunk places. `DogObstacle` is loaded but never placed. */
  datatype Kind = CloudObstacle | CloudLightningObstacle | PlaneObstacle | Coin

  datatype Entry = Entry(kind: Kind, pos: Pos)

  type Slice = seq<Entry>

  type Chunk = seq<Slice>

  datatype ChunkName = A | B | C | D | E | F | G | H

  function Cloud(x: int, y: int): Entry { Entry(CloudObstacle, Pos(x, y)) }
  function Lightning(x: int, y: int): Entry { Entry(CloudLightningObstacle, Pos(x, y)) }
  function Plane(x: int, y: int): Entry { Entry(PlaneObstacle, Pos(x, y)) }
  function CoinAt(x: int, y: int): Entry { Entry(Coin, Pos(x, y)) }

  function Template(n: ChunkName): (r: Chunk)
    ensures |r| == 3
    ensures forall i :: 0 <= i < |r| ==> 0 < |r[i]| <= MaxSliceEntries
  {
    match n
    case A => [
      [Cloud(-Dim, Dim), Cloud(-Dim, -Dim), Cloud(Dim, -Dim), Cloud(Dim, 0), CoinAt(0, 0)],
      [Cloud(Dim, Dim), Cloud(-Dim, -Dim), Plane(0, 0), CoinAt(0, Dim)],
      [Cloud(0, Dim), Cloud(0, -Dim), CoinAt(-Dim, Dim)]
    ]
    case B => [
      [Cloud(-Dim, -Dim), Lightning(0, Dim), Cloud(Dim, -Dim), CoinAt(Dim, Dim)],
      [Cloud(-Dim, -Dim), Cloud(Dim, 0), CoinAt(0, 0)],
      [Cloud(Dim, Dim), Lightning(-Dim, Dim), CoinAt(0, 0)]
    ]
    case C => [
      [Cloud(Dim, -Dim), Plane(-Dim, Dim), CoinAt(0, 0)],
      [Cloud(Dim, Dim), Cloud(-Dim, 0), CoinAt(0, 0)],
      [Cloud(-Dim, -Dim), Cloud(0, 0), Lightning(Dim, Dim), CoinAt(-Dim, 0)]
    ]
    case D => [
      [Cloud(-Dim, Dim), Cloud(Dim, 0), Plane(0, -Dim), CoinAt(0, Dim)],
      [Cloud(-Dim, -Dim), Lightning(Dim, Dim), CoinAt(-Dim, Dim)],
      [Cloud(-Dim, 0), Cloud(-Dim, -Dim), Cloud(0, -Dim), Cloud(Dim, -Dim), Cloud(Dim, 0), Cloud(Dim, Dim), CoinAt(0, Dim)]
    ]
    case E => [
      [Cloud(-Dim, 0), Cloud(-Dim, -Dim), Cloud(Dim, Dim), Cloud(Dim, 0), CoinAt(0, -Dim)],
      [Cloud(Dim, -Dim), Lightning(-Dim, Dim), CoinAt(0, 0)],
      [Cloud(Dim, Dim), Cloud(Dim, 0), Cloud(0, -Dim), CoinAt(0, Dim)]
    ]
    case F => [
      [Cloud(-Dim, 0), Lightning(Dim, Dim), CoinAt(0, 0)],
      [Cloud(-Dim, Dim), Cloud(-Dim, 0), Cloud(0, -Dim), CoinAt(0, Dim)],
      [Cloud(-Dim, Dim), Cloud(-Dim, 0), Cloud(0, -Dim), Cloud(Dim, -Dim), Cloud(Dim, Dim), CoinAt(0, 0)]
    ]
    case G => [
      [Cloud(-Dim, -Dim), Cloud(0, -Dim), Cloud(Dim, Dim), Lightning(-Dim, Dim), CoinAt(Dim, 0)],
      [Cloud(-Dim, Dim), Cloud(Dim, Dim), Plane(-Dim, -Dim), CoinAt(0, 0)],
      [Cloud(0, Dim), Lightning(Dim, Dim), CoinAt(-Dim, 0)]
    ]
    case H => [
      [Cloud(0, 0), CoinAt(Dim, 0)],
      [Cloud(-Dim, -Dim), Cloud(0, 0), Cloud(Dim, Dim), CoinAt(Dim, 0)],
      [Cloud(Dim, Dim), Lightning(-Dim, 0), CoinAt(Dim, -Dim)]
    ]
  }

  /** How many entries of a slice are coins. */
  function CoinCount(s: Slice): nat {
    CoinsFrom(s, 0)
  }

  /** The coins among `s[i..]`. */
  function CoinsFrom(s: Slice, i: nat): nat
    decreases |s| - i
  {
    if i >= |s| then 0 else (if s[i].kind == Coin then 1 else 0) + CoinsFrom(s, i + 1)
  }

  /** The most entries a slice holds: at least two of the nine cells stay free. */
  const MaxSliceEntries: nat := 7

  /** The authoring rules every slice of the catalog follows. */
  predicate SliceWellAuthored(s: Slice) {
    && |s| <= MaxSliceEntries
    && CoinCount(s) == 1
    && (forall j :: 0 <= j < |s| ==> IsLatticePoint(Dim, s[j].pos))
    && (forall j, k :: 0 <= j < k < |s| ==> s[j].pos != s[k].pos)
  }

  /** Three slices, each well authored. */
  predicate WellAuthored(c: Chunk) {
    |c| == 3 && forall i :: 0 <= i < |c| ==> SliceWellAuthored(c[i])
  }

  /** A slice whose only coin is at index `j` has coin count one. */
  lemma {:induction false} SingleCoin(s: Slice, j: nat, i: nat)
    requires j < |s| && s[j].kind == Coin
    requires forall k :: 0 <= k < |s| && k != j ==> s[k].kind != Coin
    requires i <= |s|
    ensures CoinsFrom(s, i) == (if i <= j then 1 else 0)
    decreases |s| - i
  {
    if i < |s| {
      SingleCoin(s, j, i + 1);
    }
  }

  /** The authoring check for one slice whose coin is its last entry. */
  lemma CheckSlice(s: Slice)
    requires |s| > 0 && s[|s| - 1].kind == Coin
    requires forall k :: 0 <= k < |s| - 1 ==> s[k].kind != Coin
    requires |s| <= MaxSliceEntries
    requires forall j :: 0 <= j < |s| ==> IsLatticePoint(Dim, s[j].pos)
    requires forall j, k :: 0 <= j < k < |s| ==> s[j].pos != s[k].pos
    ensures SliceWellAuthored(s)
  {
    SingleCoin(s, |s| - 1, 0);
  }

  lemma CheckChunk(c: Chunk)
    requires |c| == 3
    requires forall i :: 0 <= i < 3 ==> |c[i]| > 0 && c[i][|c[i]| - 1].kind == Coin
    requires forall i, k :: 0 <= i < 3 && 0 <= k < |c[i]| - 1 ==> c[i][k].kind != Coin
    requires forall i :: 0 <= i < 3 ==> |c[i]| <= MaxSliceEntries
    requires forall i, j :: 0 <= i < 3 && 0 <= j < |c[i]| ==> IsLatticePoint(Dim, c[i][j].pos)
    requires forall i, j, k :: 0 <= i < 3 && 0 <= j < k < |c[i]| ==> c[i][j].pos != c[i][k].pos
    ensures WellAuthored(c)
  {
    CheckSlice(c[0]);
    CheckSlice(c[1]);
    CheckSlice(c[2]);
  }

  /** Every template of the catalog satisfies the authoring rules. */
  lemma CatalogWellAuthored(n: ChunkName)
    ensures WellAuthored(Template(n))
  {
    CheckChunk(Template(n));
  }
}
