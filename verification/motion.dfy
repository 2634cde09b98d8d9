/**
 * Player motion (`moveUp`, `moveDown`, `moveLeft`, `moveRight` in main.js):
 * each command moves the player one step along one axis, clamps on the side it
 * moves towards, and copies the new coordinate to the camera.
 */
module Motion {
  import opened Grid

  /** Distance of one move. */
  const Step: int := 6

  /** The coordinate bound on both axes, on either side. */
  const Bound: int := 6

  /** The player's and the camera's lateral coordinates; the camera's depth never changes. */
  datatype Rig = Rig(player: Pos, camera: Pos)

  /** The player is loaded at the origin; the camera starts behind it at x = y = 0. */
  const Start: Rig := Rig(Pos(0, 0), Pos(0, 0))

  /** `moveUp`: one step up, clamped at the top bound only. */
  function MoveUp(r: Rig): (s: Rig)
    ensures s.player.x == r.player.x && s.camera.x == r.camera.x
    ensures s.player.y <= Bound
    ensures s.player.y == r.player.y + Step || (s.player.y == Bound && r.player.y + Step > Bound)
    ensures s.camera.y == s.player.y
  {
    var y := if r.player.y + Step > Bound then Bound else r.player.y + Step;
    Rig(r.player.(y := y), r.camera.(y := y))
  }

  /** `moveDown`: one step down, clamped at the bottom bound only. */
  function MoveDown(r: Rig): (s: Rig)
    ensures s.player.x == r.player.x && s.camera.x == r.camera.x
    ensures s.player.y >= -Bound
    ensures s.player.y == r.player.y - Step || (s.player.y == -Bound && r.player.y - Step < -Bound)
    ensures s.camera.y == s.player.y
  {
    var y := if r.player.y - Step < -Bound then -Bound else r.player.y - Step;
    Rig(r.player.(y := y), r.camera.(y := y))
  }

  /** `moveLeft`: one step left, clamped at the left bound only. */
  function MoveLeft(r: Rig): (s: Rig)
    ensures s.player.y == r.player.y && s.camera.y == r.camera.y
    ensures s.player.x >= -Bound
    ensures s.player.x == r.player.x - Step || (s.player.x == -Bound && r.player.x - Step < -Bound)
    ensures s.camera.x == s.player.x
  {
    var x := if r.player.x - Step < -Bound then -Bound else r.player.x - Step;
    Rig(r.player.(x := x), r.camera.(x := x))
  }

  /** `moveRight`: one step right, clamped at the right bound only. */
  function MoveRight(r: Rig): (s: Rig)
    ensures s.player.y == r.player.y && s.camera.y == r.camera.y
    ensures s.player.x <= Bound
    ensures s.player.x == r.player.x + Step || (s.player.x == Bound && r.player.x + Step > Bound)
    ensures s.camera.x == s.player.x
  {
    var x := if r.player.x + Step > Bound then Bound else r.player.x + Step;
    Rig(r.player.(x := x), r.camera.(x := x))
  }

  datatype Command = Up | Down | Left | Right

  /** The move a key press triggers. */
  function Apply(r: Rig, c: Command): Rig {
    match c
    case Up => MoveUp(r)
    case Down => MoveDown(r)
    case Left => MoveLeft(r)
    case Right => MoveRight(r)
  }

  /** A command issued at its bound changes nothing. */
  lemma MoveAtBoundIdempotent(r: Rig)
    requires r.camera == r.player
    ensures r.player.y == Bound ==> MoveUp(r) == r
    ensures r.player.y == -Bound ==> MoveDown(r) == r
    ensures r.player.x == -Bound ==> MoveLeft(r) == r
    ensures r.player.x == Bound ==> MoveRight(r) == r
  {
  }

  /** Inside the range, down undoes up and left undoes right (and the reverse). */
  lemma MovesUndo(r: Rig)
    requires IsLatticePoint(Dim, r.player) && r.camera == r.player
    ensures r.player.y < Bound ==> MoveDown(MoveUp(r)) == r
    ensures r.player.y > -Bound ==> MoveUp(MoveDown(r)) == r
    ensures r.player.x < Bound ==> MoveLeft(MoveRight(r)) == r
    ensures r.player.x > -Bound ==> MoveRight(MoveLeft(r)) == r
  {
  }

  /** The camera follows the player, and the player stays on the lattice {-6, 0, 6}^2. */
  predicate RigInv(r: Rig) {
    r.camera == r.player && IsLatticePoint(Dim, r.player)
  }

  lemma {:induction false} CommandsKeepRigInv(r: Rig, cmds: seq<Command>)
    requires RigInv(r)
    ensures RigInv(ApplyAll(r, cmds))
    decreases |cmds|
  {
    if |cmds| > 0 {
      CommandsKeepRigInv(Apply(r, cmds[0]), cmds[1..]);
    }
  }

  function ApplyAll(r: Rig, cmds: seq<Command>): Rig
    decreases |cmds|
  {
    if |cmds| == 0 then r else ApplyAll(Apply(r, cmds[0]), cmds[1..])
  }

  /** From the start position, any key sequence leaves the player on the lattice, camera aligned. */
  lemma FromStart(cmds: seq<Command>)
    ensures IsLatticePoint(Dim, ApplyAll(Start, cmds).player)
    ensures ApplyAll(Start, cmds).camera == ApplyAll(Start, cmds).player
  {
    CommandsKeepRigInv(Start, cmds);
  }
}
