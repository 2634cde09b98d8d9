/**
 * The chunk sequencer `_chooseChunks` of main.js: a stack `lastChunk` holding
 * one pending token ("first" .. "eighth"), a candidate list per token, and the
 * `switch` that pushes the successor token for the drawn index.
 */
module Sequencer {
  import opened Options
  import Draw
  import opened Catalog
  import opened Registry

  datatype Token = First | Second | Third | Fourth | Fifth | Sixth | Seventh | Eighth

  /** The token that names a chunk: chunkA is "first", ..., chunkH is "eighth". */
  function TokenOf(n: ChunkName): Token {
    match n
    case A => First
    case B => Second
    case C => Third
    case D => Fourth
    case E => Fifth
    case F => Sixth
    case G => Seventh
    case H => Eighth
  }

  /** The array `avaliableChunk` each token's branch builds, in order. */
  function Candidates(t: Token): (r: seq<ChunkName>)
    ensures 2 <= |r| <= 6
    ensures forall i :: 0 <= i < |r| ==> TokenOf(r[i]) != t
    ensures forall i, j :: 0 <= i < j < |r| ==> r[i] != r[j]
  {
    match t
    case First => [B, C, D, F, H]
    case Second => [A, C, E, F, H]
    case Third => [A, B, E, F, H]
    case Fourth => [A, C, E, F, G, H]
    case Fifth => [F, H]
    case Sixth => [C, D, H]
    case Seventh => [E, F, H]
    case Eighth => [A, B, E, F, G]
  }

  /** The `case` of a `switch (chosen)` that matches `i`, if any. */
  function SwitchOn(i: nat, cases: seq<Token>): Option<Token> {
    if i < |cases| then Some(cases[i]) else None
  }

  /**
   * The token each branch's `switch (chosen)` pushes; `None` when no case
   * matches and nothing is pushed. The pushed token always names the chunk at
   * the chosen index and never equals the token just popped.
   */
  function Successor(t: Token, i: nat): (s: Option<Token>)
    ensures s.Some? <==> i < |Candidates(t)|
    ensures s.Some? ==> s.value == TokenOf(Candidates(t)[i])
    ensures s.Some? ==> s.value != t
  {
    match t
    case First => SwitchOn(i, [Second, Third, Fourth, Sixth, Eighth])
    case Second => SwitchOn(i, [First, Third, Fifth, Sixth, Eighth])
    case Third => SwitchOn(i, [First, Second, Fifth, Sixth, Eighth])
    case Fourth => SwitchOn(i, [First, Third, Fifth, Sixth, Seventh, Eighth])
    case Fifth => SwitchOn(i, [Sixth, Eighth])
    case Sixth => SwitchOn(i, [Third, Fourth, Eighth])
    case Seventh => SwitchOn(i, [Fifth, Sixth, Eighth])
    case Eighth => SwitchOn(i, [First, Second, Fifth, Sixth, Seventh])
  }

  /** Module-level state the sequencer reads and writes. */
  datatype World = World(objects: Objects, lastChunk: seq<Token>, modelsLoading: bool)

  /** Beyond this depth of the last object the sequencer holds off. */
  const StopDepth: real := -50.0

  /** Total entries of the named templates. */
  function TotalSize(names: seq<ChunkName>): nat {
    if |names| == 0 then 0 else Size(Template(names[0])) + TotalSize(names[1..])
  }

  /**
   * Evaluating a candidate array literal: every named template is instantiated,
   * in list order, each behind whatever the previous one appended.
   */
  function GenerateAll(objs: Objects, loading: bool, names: seq<ChunkName>): (r: Objects)
    ensures loading ==> r == objs
    ensures !loading ==> |r| == |objs| + TotalSize(names)
    ensures |objs| <= |r| && r[..|objs|] == objs
    decreases |names|
  {
    if |names| == 0 then objs
    else
      var next := GenerateChunks(objs, loading, Template(names[0]));
      var r := GenerateAll(next, loading, names[1..]);
      assert r[..|next|][..|objs|] == r[..|objs|];
      r
  }

  /** The sequencer pops a token this frame. */
  predicate Fires(w: World) {
    |w.objects| > 0 && LastDepth(w.objects) >= StopDepth && |w.lastChunk| > 0
  }

  /** The token `lastChunk.pop()` returns. */
  function Top(w: World): Token
    requires |w.lastChunk| > 0
  {
    w.lastChunk[|w.lastChunk| - 1]
  }

  /** The stack after `pop()`. */
  function Popped(w: World): seq<Token>
    requires |w.lastChunk| > 0
  {
    w.lastChunk[..|w.lastChunk| - 1]
  }

  /**
   * One call of `_chooseChunks` with `draw` standing for `Math.random()`.
   * An empty registry gets chunkA and keeps its token; a registry whose last
   * object is beyond the stop depth, or an empty stack, is left alone;
   * otherwise one token is popped, every candidate is instantiated, and the
   * token naming the drawn candidate is pushed.
   */
  function Fire(w: World, draw: real): (r: World)
    requires Draw.IsDraw(draw)
    ensures r.modelsLoading == w.modelsLoading
    ensures |w.objects| == 0 ==>
      r.lastChunk == w.lastChunk && r.objects == GenerateChunks(w.objects, w.modelsLoading, Template(A))
    ensures |w.objects| > 0 && !Fires(w) ==> r == w
    ensures Fires(w) ==>
      var cands := Candidates(Top(w));
      && r.lastChunk == Popped(w) + [TokenOf(cands[Draw.Index(draw, |cands|)])]
      && r.lastChunk[|r.lastChunk| - 1] != Top(w)
      && |r.objects| == |w.objects| + (if w.modelsLoading then 0 else TotalSize(cands))
      && r.objects[..|w.objects|] == w.objects
      && r.objects == GenerateAll(w.objects, w.modelsLoading, cands)
  {
    if |w.objects| == 0 then
      w.(objects := GenerateChunks(w.objects, w.modelsLoading, Template(A)))
    else if LastDepth(w.objects) < StopDepth then
      w
    else if |w.lastChunk| == 0 then
      w
    else
      var t := Top(w);
      var cands := Candidates(t);
      var objs := GenerateAll(w.objects, w.modelsLoading, cands);
      var chosen := Draw.Index(draw, |cands|);
      var pushed := Successor(t, chosen);
      World(objs, Popped(w) + (if pushed.Some? then [pushed.value] else []), w.modelsLoading)
  }

  /** A firing keeps exactly one pending token: it pops one and pushes one. */
  lemma FireKeepsOneToken(w: World, draw: real)
    requires Draw.IsDraw(draw)
    requires |w.lastChunk| == 1
    ensures |Fire(w, draw).lastChunk| == 1
  {
  }

  /** What a firing appends does not depend on the draw: every candidate is built. */
  lemma FireObjectsIgnoreDraw(w: World, d1: real, d2: real)
    requires Draw.IsDraw(d1) && Draw.IsDraw(d2)
    ensures Fire(w, d1).objects == Fire(w, d2).objects
  {
  }

  /** Every candidate of every token can be the one whose token is pushed. */
  lemma EverySuccessorReachable(w: World, k: nat)
    requires Fires(w)
    requires k < |Candidates(Top(w))|
    ensures exists d :: Draw.IsDraw(d) && Fire(w, d).lastChunk == Popped(w) + [TokenOf(Candidates(Top(w))[k])]
  {
    var n := |Candidates(Top(w))|;
    Draw.IndexReaches(n, k);
    var d := k as real / n as real;
    assert Fire(w, d).lastChunk == Popped(w) + [TokenOf(Candidates(Top(w))[k])];
  }

  /** Instantiating a candidate list is instantiating a prefix of it, then the rest behind it. */
  lemma {:induction false} GenerateAllSplit(objs: Objects, loading: bool, names: seq<ChunkName>, k: nat)
    requires k <= |names|
    ensures GenerateAll(objs, loading, names) == GenerateAll(GenerateAll(objs, loading, names[..k]), loading, names[k..])
    decreases k
  {
    if k > 0 {
      var next := GenerateChunks(objs, loading, Template(names[0]));
      assert names[..k][1..] == names[1..][..k - 1];
      assert names[1..][k - 1..] == names[k..];
      GenerateAllSplit(next, loading, names[1..], k - 1);
    }
  }

  /** Candidates are placed in list order: the first `k` of them form a prefix of the result. */
  lemma InListOrder(objs: Objects, loading: bool, names: seq<ChunkName>, k: nat)
    requires k <= |names|
    ensures var before := GenerateAll(objs, loading, names[..k]);
      |before| <= |GenerateAll(objs, loading, names)| && GenerateAll(objs, loading, names)[..|before|] == before
  {
    GenerateAllSplit(objs, loading, names, k);
  }

  /** Instantiating any list of templates keeps the registry in depth order. */
  lemma {:induction false} GenerateAllOrdered(objs: Objects, loading: bool, names: seq<ChunkName>)
    requires DepthOrdered(objs)
    ensures DepthOrdered(GenerateAll(objs, loading, names))
    decreases |names|
  {
    if |names| > 0 {
      GenerateChunksOrdered(objs, loading, Template(names[0]));
      GenerateAllOrdered(GenerateChunks(objs, loading, Template(names[0])), loading, names[1..]);
    }
  }

  /** Instantiating any list of templates keeps every object on the lattice. */
  lemma {:induction false} GenerateAllOnLattice(objs: Objects, loading: bool, names: seq<ChunkName>)
    requires OnLattice(objs)
    ensures OnLattice(GenerateAll(objs, loading, names))
    decreases |names|
  {
    if |names| > 0 {
      GenerateChunksOnLattice(objs, loading, names[0]);
      GenerateAllOnLattice(GenerateChunks(objs, loading, Template(names[0])), loading, names[1..]);
    }
  }
}
