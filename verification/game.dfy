/**
 * One animation frame of main.js (`_RAF`) as far as the registry and the
 * sequencer are concerned: the advance/cull pass, then `_chooseChunks`.
 */
module Game {
  import Draw
  import opened Catalog
  import opened Registry
  import opened Sequencer

  /** State at start-up: empty registry, the token "first", models still loading or loaded. */
  function Init(loading: bool): World {
    World([], [First], loading)
  }

  /** The facts every reachable state keeps. */
  predicate Inv(w: World) {
    |w.lastChunk| == 1 && DepthOrdered(w.objects) && OnLattice(w.objects)
  }

  /**
   * One frame: `_RAFAirObjects()` then `_chooseChunks()`; the pruned copy is
   * discarded, so no object ever leaves the registry. Every old object keeps
   * its kind, cell and place and comes one step nearer; anything new is behind it.
   */
  function Tick(w: World, draw: real): (r: World)
    requires Draw.IsDraw(draw)
    ensures r.modelsLoading == w.modelsLoading
    ensures |w.objects| <= |r.objects|
    ensures forall k :: 0 <= k < |w.objects| ==>
      && r.objects[k].kind == w.objects[k].kind
      && r.objects[k].pos == w.objects[k].pos
      && r.objects[k].z == w.objects[k].z + Speed
    ensures |r.lastChunk| <= |w.lastChunk|
  {
    Fire(w.(objects := Advance(w.objects)), draw)
  }

  lemma InitInv(loading: bool)
    ensures Inv(Init(loading))
  {
  }

  /** Every frame keeps one pending token, depth order and lattice positions. */
  lemma TickPreservesInv(w: World, draw: real)
    requires Draw.IsDraw(draw)
    requires Inv(w)
    ensures Inv(Tick(w, draw))
  {
    var v := w.(objects := Advance(w.objects));
    AdvanceOrdered(w.objects);
    AdvanceOnLattice(w.objects);
    if |v.objects| == 0 {
      GenerateChunksOrdered(v.objects, v.modelsLoading, Template(A));
      GenerateChunksOnLattice(v.objects, v.modelsLoading, A);
    } else if Fires(v) {
      GenerateAllOrdered(v.objects, v.modelsLoading, Candidates(Top(v)));
      GenerateAllOnLattice(v.objects, v.modelsLoading, Candidates(Top(v)));
    }
  }

  /** A frame moves the last object one step nearer. */
  lemma AdvanceLastDepth(objs: Objects)
    requires |objs| > 0
    ensures LastDepth(Advance(objs)) == LastDepth(objs) + Speed
  {
  }

  /** Frames in sequence, one draw per frame. */
  function Run(w: World, draws: seq<real>): (r: World)
    requires forall k :: 0 <= k < |draws| ==> Draw.IsDraw(draws[k])
    ensures r.modelsLoading == w.modelsLoading
    ensures |w.objects| <= |r.objects|
    ensures |r.lastChunk| <= |w.lastChunk|
    decreases |draws|
  {
    if |draws| == 0 then w else Run(Tick(w, draws[0]), draws[1..])
  }

  /** Any number of frames keeps the invariant. */
  lemma {:induction false} RunPreservesInv(w: World, draws: seq<real>)
    requires forall k :: 0 <= k < |draws| ==> Draw.IsDraw(draws[k])
    requires Inv(w)
    ensures Inv(Run(w, draws))
    decreases |draws|
  {
    if |draws| > 0 {
      TickPreservesInv(w, draws[0]);
      RunPreservesInv(Tick(w, draws[0]), draws[1..]);
    }
  }

  /**
   * Back-pressure: while the last object stays beyond the stop depth after
   * every frame's step, no object is added and no token is consumed.
   */
  lemma {:induction false} SuspendedRun(w: World, draws: seq<real>)
    requires forall k :: 0 <= k < |draws| ==> Draw.IsDraw(draws[k])
    requires |w.objects| > 0
    requires LastDepth(w.objects) + Speed * |draws| as real < StopDepth
    ensures |Run(w, draws).objects| == |w.objects|
    ensures Run(w, draws).lastChunk == w.lastChunk
    ensures LastDepth(Run(w, draws).objects) == LastDepth(w.objects) + Speed * |draws| as real
    decreases |draws|
  {
    if |draws| > 0 {
      var next := Tick(w, draws[0]);
      AdvanceLastDepth(w.objects);
      assert next == w.(objects := Advance(w.objects));
      SuspendedRun(next, draws[1..]);
    }
  }

  /**
   * Resumption: once a frame's step brings the last object back to the stop
   * depth, that frame pops the pending token and appends every candidate.
   */
  lemma Resumes(w: World, draw: real)
    requires Draw.IsDraw(draw)
    requires |w.objects| > 0 && |w.lastChunk| > 0 && !w.modelsLoading
    requires LastDepth(w.objects) + Speed >= StopDepth
    ensures |Tick(w, draw).objects| == |w.objects| + TotalSize(Candidates(Top(w)))
    ensures |Tick(w, draw).objects| > |w.objects|
    ensures var cands := Candidates(Top(w));
      Tick(w, draw).lastChunk == Popped(w) + [TokenOf(cands[Draw.Index(draw, |cands|)])]
  {
    AdvanceLastDepth(w.objects);
    var t := Top(w);
    CatalogWellAuthored(Candidates(t)[0]);
    assert Size(Template(Candidates(t)[0])) > 0 by {
      var c := Template(Candidates(t)[0]);
      assert c[..2] + [c[2]] == c;
    }
  }
}
