# Plane game: chunk spawning and object lifecycle in Dafny

This project models the gameplay core of `main.js`, a browser endless-runner.
The player flies on a 3x3 lateral grid while chunks of clouds, lightning clouds,
planes and coins scroll towards the camera. Rendering and model loading are
stripped away. What is left is sequential, deterministic logic once each
`Math.random()` call is supplied as an argument:

- **Grid allocator** (`generateObjectPos`), module `Grid`. It builds the lattice
  {-d, 0, d}², filters out the used cells and picks one by a random draw.
- **Chunk catalog** (`chunkA` .. `chunkH`), module `Catalog`. These are eight
  constant layouts. Each has three slices of (kind, cell) entries.
- **Registry** (`allObjects`), module `Registry`. It covers placement
  (`_generateChunks` with `_addModel`) and the advance/cull pass
  (`_RAFAirObjects`).
- **Chunk sequencer** (`_chooseChunks`), module `Sequencer`. It is a stack
  `lastChunk` of tokens "first" .. "eighth", a candidate list per token, and the
  `switch` that pushes the successor token.
- **Frame**, module `Game`. One frame advances the registry and then runs the
  sequencer. `Game.Inv` is the invariant every frame keeps: one pending token,
  objects in depth order, every object on the lattice.
- **Player motion** (`moveUp/Down/Left/Right`), module `Motion`.

Modelling choices:

- Depth `z` is a `real`, so the 0.1 step per frame is exact.
- Lateral coordinates are integers.
- A draw of `Math.random()` is a `real` in [0, 1). `Draw.Index` turns it into a
  list index the way `Math.floor(r * n)` does.
- JavaScript `undefined` becomes `Options.None`. This covers an absent
  `usedPositions` argument and the element read from an empty `avaliable` list.
- Each spawned object is a value carrying:
  - its kind tag;
  - its cell;
  - its depth;
  - a `visible` flag, which starts true as on a fresh clone;
  - a `crossed` flag, which starts false.

Behaviour reproduced as the code has it, where a reader might expect otherwise:

- **Eager instantiation.** Each candidate array literal calls `_generateChunks`
  for every entry while the array is being built. So when the sequencer fires
  for a token, all of that token's candidate chunks are appended, back to back
  and in list order. The draw only decides which token is pushed next.
  `Sequencer.Fire`, `Sequencer.FireObjectsIgnoreDraw` and
  `Sequencer.InListOrder` state this.
- **The registry is never pruned.** The cull pass records indexes and splices
  them out of the copy `airObjects`, not out of `allObjects`.
  `Registry.PrunedCopy` models the copy. `Registry.PrunedCopyIsSurvivors`
  proves that the copy ends up holding exactly the surviving objects.
  `Game.Tick` then discards the copy, as the code does.
- **Each move clamps on one side only.** For example, `moveUp` clamps only
  against the upper bound. Starting from the origin the player still stays on
  {-6, 0, 6}² (`Motion.FromStart`).
- **Popping an empty stack.** `lastChunk.pop()` on an empty stack yields
  `undefined`. No branch matches it, so that frame's `_chooseChunks` call
  changes nothing (the advance pass still moves every object 0.1 nearer). This state
  is unreachable from the start state (`Game.Inv`).
- **The firing test uses the code's comparison.** The sequencer holds off only
  while the last depth is strictly below -50, so it fires at exactly -50.

Other places where the code differs from what a reader might expect:

- Forward speed is the constant 0.1, not a value derived from a speed multiplier.
- Overlap checks only log to the console. There are no coin, fuel or game-over
  effects.
- Every candidate is instantiated, not only the drawn one.
- The fallback `?? -18` in `_chooseChunks` never applies. The registry is
  non-empty at that point and every depth is a number, so the model has no such
  branch.

## Model

| member | source | states |
|---|---|---|
| Draw.Index | main.js:25 | `Math.floor(r * n)` for a draw in [0, 1) is an index below `n`, or 0 for an empty list |
| Draw.IndexReaches | main.js:373 | every index of a non-empty candidate list is produced by some draw |
| Grid.Lattice | main.js:10-16 | the nested loops over [-dim, 0, dim] build a grid of exactly nine cells |
| Grid.LatticeIsTheGrid | main.js:10-16 | a point is in the built grid exactly when both coordinates are in {-dim, 0, dim} |
| Grid.LatticeDistinct | main.js:10-16 | for a non-zero half-extent the nine grid cells are pairwise distinct |
| Grid.Without | main.js:19-21 | the filter keeps exactly the grid cells not listed among the used positions, and never grows the list |
| Grid.AvailableMembers | main.js:18-24 | a cell is available exactly when it is a lattice point and not excluded; an absent list excludes nothing |
| Grid.GenerateObjectPos | main.js:9-27 | a returned cell is a lattice point that is not excluded; nothing is returned exactly when every lattice point is excluded |
| Grid.NoExclusionsAllNine | main.js:22-24 | with no used positions all nine distinct cells are eligible |
| Grid.GenerateObjectPosReaches | main.js:25-26 | every free lattice cell is returned for some draw |
| Catalog.Template | main.js:193-348 | each of the eight chunks has three slices, each with between one and 7 entries |
| Catalog.SingleCoin | main.js:193-348 | a slice whose only coin is at one index has a coin count of one |
| Catalog.CatalogWellAuthored | main.js:193-348 | every template has three slices; each slice has at most 7 entries, all on the lattice, at pairwise distinct cells, with exactly one coin |
| Registry.ChunkObjects | main.js:178-189 | the nested loops append one object per entry, all between one and `|chunk|` spacings behind the last depth |
| Registry.ChunkLayout | main.js:178-189 | entry `j` of slice `i` becomes object `Offset(i) + j`, with its template kind and cell, at depth `lastZ - 18 * (i + 1)` |
| Registry.GenerateChunks | main.js:168-190 | while loading nothing is added; otherwise exactly one object per entry is appended in slice-then-entry order, behind the old registry, which is kept as a prefix |
| Registry.LoadingAddsNothing | main.js:658-666 | while models are loading `_addModel` drops every entry, so placing any chunk leaves the registry unchanged |
| Registry.AppendLayout | main.js:178-189 | after appending, each entry sits at its slice-then-entry position behind the old objects |
| Registry.NoGap | main.js:169-186 | the nearest slice of a new chunk lies exactly 18 behind the previous last object |
| Registry.DepthOrderedPairwise | main.js:178-189 | in a depth-ordered registry any later object is at least as far away as any earlier one |
| Registry.DepthOrderedAppend | main.js:663 | appending an ordered batch that starts no nearer than the old last object keeps the registry ordered |
| Registry.ChunkObjectsOrdered | main.js:178-189 | a chunk's objects are placed in non-increasing depth |
| Registry.GenerateChunksOrdered | main.js:168-190 | placement keeps the registry in depth order |
| Registry.ChunkObjectsOnLattice | main.js:178-189 | objects placed from entries on the lattice are on the lattice |
| Registry.GenerateChunksOnLattice | main.js:168-190 | placing any catalog template keeps every object on the lattice |
| Registry.AdvanceOne | main.js:687-720 | kind and cell are kept and depth grows by 0.1; past the kind's cull depth (100 for planes, 10 otherwise) the object is hidden and crossed; at depth 0 or nearer it is visible and not crossed; in between the flags are unchanged |
| Registry.Advance | main.js:683-735 | the registry keeps its length and order and every object moves by the same 0.1 |
| Registry.PlaneCullsLater | main.js:704-716 | between depth 10 and 100 a plane keeps its flags while any other kind at the same depth is culled |
| Registry.AdvanceOrdered | main.js:688 | a uniform step keeps the registry in depth order |
| Registry.AdvanceOnLattice | main.js:688 | the pass does not move objects laterally off the lattice |
| Registry.CulledIndexes | main.js:684-716 | the recorded indexes are strictly ascending and in range; an index is recorded exactly when it names a culled object |
| Registry.Splice | main.js:739 | `splice(i, 1)` on a sequence; characterised by `Registry.SpliceRemovesOne` |
| Registry.SpliceRemovesOne | main.js:739 | `splice(i, 1)` with `i` in range removes exactly the element at `i` and shortens the array by one; past the end it changes nothing |
| Registry.SpliceEach | main.js:738-740 | the `forEach` of splices in list order; characterised by `Registry.SpliceEachShrinks` and `Registry.SpliceEachAppend` |
| Registry.SpliceEachShrinks | main.js:738-740 | splicing a list of indexes in turn never adds an element and removes at most one per index |
| Registry.PrunedCopy | main.js:683-740 | the copy `airObjects` after the reversed indexes are spliced out; characterised by `Registry.PrunedCopyWithin` and `Registry.PrunedCopyIsSurvivors` |
| Registry.PrunedCopyWithin | main.js:737-740 | the pruned copy holds only objects of the advanced registry and loses at most one per recorded index |
| Registry.Reverse | main.js:737 | `indexes.reverse()` keeps the length; `Registry.ReverseIndex` gives the contents |
| Registry.ReverseIndex | main.js:737 | `indexes.reverse()` puts element `k` at position `n - 1 - k` |
| Registry.ReverseDescending | main.js:737 | reversing the ascending index list gives a strictly descending list with the same bound |
| Registry.SpliceEachAppend | main.js:738-740 | splicing out descending indexes below the length leaves a trailing element last |
| Registry.PrunedCopyIsSurvivors | main.js:737-742 | splicing the reversed indexes out of the copy leaves exactly the non-culled objects, in order |
| Sequencer.Candidates | main.js:366-551 | each token's candidate array lists between 2 and 6 distinct chunks, never the chunk the token itself names |
| Sequencer.Successor | main.js:375-571 | the pushed token exists exactly for an index inside the candidate list; it names the chunk at that index (A is "first" .. H is "eighth") and differs from the popped token |
| Sequencer.GenerateAll | main.js:366-372 | evaluating a candidate array appends the total size of all its chunks and keeps the old registry as a prefix; while loading nothing changes |
| Sequencer.Fire | main.js:351-573 | empty registry: chunkA only, stack untouched; last depth below -50 or empty stack: no change; otherwise one token is popped and the token of the drawn candidate (never the popped one) is pushed, and the registry becomes the result of instantiating every candidate in list order, growing by their total size |
| Sequencer.FireKeepsOneToken | main.js:363-392 | with one pending token, a call leaves exactly one pending token |
| Sequencer.FireObjectsIgnoreDraw | main.js:366-374 | the appended objects are the same whatever index is drawn |
| Sequencer.EverySuccessorReachable | main.js:373-391 | each candidate's token is pushed for some draw |
| Sequencer.GenerateAllSplit | main.js:395-401 | instantiating a candidate list equals instantiating a prefix and then the rest behind it |
| Sequencer.InListOrder | main.js:395-401 | the objects of the first `k` candidates form a prefix of the result, so candidates are placed back to back in list order |
| Sequencer.GenerateAllOrdered | main.js:366-372 | instantiating all candidates keeps the registry in depth order |
| Sequencer.GenerateAllOnLattice | main.js:366-372 | instantiating all candidates keeps every object on the lattice |
| Game.InitInv | main.js:6-7 | the start state (empty registry, stack ["first"]) satisfies the invariant |
| Game.Tick | main.js:775-777 | a frame keeps the loading flag, never shrinks the registry, keeps each old object's kind and cell at its index while moving it 0.1 nearer, and never grows the token stack |
| Game.TickPreservesInv | main.js:775-777 | every frame keeps one pending token, depth order and lattice positions |
| Game.AdvanceLastDepth | main.js:688 | a frame moves the last object 0.1 nearer |
| Game.Run | main.js:745-781 | the frame loop keeps the loading flag, never shrinks the registry and never grows the token stack |
| Game.RunPreservesInv | main.js:745-781 | any number of frames keeps one pending token, depth order and lattice positions |
| Game.SuspendedRun | main.js:358-361 | while the last depth stays below -50, frames add no object and consume no token, and only advance the last depth |
| Game.Resumes | main.js:358-391 | the first frame whose step reaches -50 replaces the pending token by the token of the drawn candidate, and appends every candidate, at least one object |
| Motion.MoveUp | main.js:784-793 | y rises by 6 or is clamped to 6 when that would exceed 6; x is untouched; the camera's y copies the player's |
| Motion.MoveDown | main.js:794-803 | y falls by 6 or is clamped to -6; x is untouched; the camera's y copies the player's |
| Motion.MoveLeft | main.js:804-813 | x falls by 6 or is clamped to -6; y is untouched; the camera's x copies the player's |
| Motion.MoveRight | main.js:814-823 | x rises by 6 or is clamped to 6; y is untouched; the camera's x copies the player's |
| Motion.MoveAtBoundIdempotent | main.js:784-823 | a move at its bound changes nothing |
| Motion.MovesUndo | main.js:784-823 | on the lattice and away from the bound, the opposite move undoes a move |
| Motion.CommandsKeepRigInv | main.js:784-823 | any sequence of moves keeps the player on {-6, 0, 6}² with the camera aligned |
| Motion.FromStart | main.js:784-823 | starting from the origin, the player stays on the lattice and the camera follows it |

## Left out

- The Three.js renderer, scene, lights, shadows, resize handling and the
  `requestAnimationFrame` scheduling (main.js:110-166, 668-672, 745-781) are
  rendering plumbing. `Game.Tick` keeps only the order of the two gameplay calls.
- GLTF model loading and material opacity (main.js:575-656) are asynchronous
  I/O. Only the `modelsLoading` flag matters here, and it is a field of
  `Sequencer.World`. The loaders pass only `resolve` to `loader.load`
  (main.js:597-616), so a failed load never settles the promise. The
  `await Promise.all` (main.js:624) then never returns, the `finally`
  (main.js:653-655) never runs, `modelsLoading` stays true and `_RAF`
  (main.js:165) is never called. That hang is not modelled: the model lets
  frames run with the flag either way.
- Sequencer.Fire: a firing while `modelsLoading` is true exists only in the
  model. There it pops and pushes a token and appends nothing. In the code
  `_chooseChunks` runs only from `_RAF`, which starts (main.js:165) after the
  `finally` has cleared the flag (main.js:653-655). Were it called earlier,
  `CloudObstacle.clone()` (main.js:195) would throw on the unset model before
  `lastChunk.pop()` (main.js:363), leaving the stack untouched.
- Game.Tick: a frame while `modelsLoading` is true is not a state the code
  reaches (see `Sequencer.Fire`); the model allows it and appends nothing.
- Game.Tick: assumes the player model is loaded. `loadPlayer` (main.js:579-595)
  returns nothing, so the player's load is not awaited and early frames can
  run with `this.player` unset. Then the collision loop (main.js:723) throws
  and stops the frame loop. The model has no such failure.
- Motion.MoveUp: assumes the player model is loaded. With `this.player` unset
  (see `Game.Tick`) the move (main.js:787) throws instead of moving.
- Motion.MoveDown: assumes the player model is loaded. With `this.player` unset
  the move (main.js:797) throws instead of moving.
- Motion.MoveLeft: assumes the player model is loaded. With `this.player` unset
  the move (main.js:807) throws instead of moving.
- Motion.MoveRight: assumes the player model is loaded. With `this.player` unset
  the move (main.js:817) throws instead of moving.
- Registry.AdvanceOne: assumes a placed clone of the plane model keeps its
  `PlaneObstacle` identity. The code tags only the loaded model itself with
  `modelName` (main.js:641), and Three.js `clone()` does not copy that custom
  property. So, as written, the test at main.js:706 sees no name on any placed
  object, and every object, planes included, is culled past depth 10. The
  library's `clone()` is not part of this model.
- Registry.PlaneCullsLater: depends on the same assumption as
  `Registry.AdvanceOne`. With the library's `clone()`, a placed plane is culled
  past 10 like any other object.
- The bounding-box collision loop (main.js:722-731) depends on the library's
  bounding boxes and only logs to the console.
- The `userData.isClone` drift branch (main.js:691-700) is left out, because no
  code sets `isClone`. It is the only caller of `generateObjectPos`, so the
  allocator is modelled on its own.
- `DogObstacle` is loaded but never placed, so `Catalog.Kind` has no case for it.
- The keyboard listeners and the key-edge block in `_RAF` (main.js:30-102,
  747-774) are event plumbing. The four move functions they call are modelled
  directly.
- The camera's depth and tilt never change and are left out.
- IEEE rounding of the 0.1 step is not modelled: depths are exact reals.
