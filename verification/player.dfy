/**
 The player of player.py: horizontal moves and jump from the keyboard, then
 gravity with a floor at y = 550.

 The player's pygame rectangle is kept as its left edge `x`, its top `y` and
 its size; `y` and `velY` are reals because the vertical speed moves in
 half-pixel steps (see README for what that leaves out).
 */
module Player {

  const GRAVITY: real := 0.5
  const JUMP_STRENGTH: real := -10.0
  const FLOOR: real := 550.0
  const STEP: int := 5

  datatype PlayerState = PlayerState(
    x: int, y: real, width: nat, height: real,
    velY: real, onGround: bool, health: int, angle: real, power: real)

  /** The three keys the player reads. */
  datatype Keys = Keys(q: bool, d: bool, z: bool)

  function Bottom(p: PlayerState): real {
    p.y + p.height
  }

  /** pygame's `centerx`: left edge plus half the width, rounded down. */
  function CenterX(p: PlayerState): int {
    p.x + p.width / 2
  }

  /** `Player.__init__`: the rectangle of an image of the given size whose
      middle of the bottom edge is at `(x, y)`. */
  function NewPlayer(x: int, y: real, width: nat, height: real): (p: PlayerState)
    ensures CenterX(p) == x && Bottom(p) == y
    ensures p.width == width && p.height == height
    ensures p.velY == 0.0 && p.onGround && p.health == 100
    ensures p.angle == 0.0 && p.power == 0.0
  {
    PlayerState(x - width / 2, y - height, width, height, 0.0, true, 100, 0.0, 0.0)
  }

  /** `handle_input`. */
  function HandleInput(p: PlayerState, keys: Keys): (r: PlayerState)
    ensures r.x == p.x + (if keys.d then STEP else 0) - (if keys.q then STEP else 0)
    ensures r.y == p.y && r.width == p.width && r.height == p.height
    ensures r.health == p.health && r.angle == p.angle && r.power == p.power
    ensures keys.z && p.onGround ==> r.velY == JUMP_STRENGTH && !r.onGround
    ensures !(keys.z && p.onGround) ==> r.velY == p.velY && r.onGround == p.onGround
  {
    var p1 := if keys.q then p.(x := p.x - STEP) else p;
    var p2 := if keys.d then p1.(x := p1.x + STEP) else p1;
    if keys.z && p2.onGround then p2.(velY := JUMP_STRENGTH, onGround := false) else p2
  }

  /** Pressing both horizontal keys leaves the player where it was. */
  lemma BothKeysCancel(p: PlayerState, z: bool)
    ensures HandleInput(p, Keys(true, true, z)).x == p.x
  {
  }

  /** `apply_gravity`: the speed grows by `GRAVITY`, the player moves by the
      new speed, and a player that reaches or passes the floor is put back on
      it, stopped and grounded. */
  function ApplyGravity(p: PlayerState): (r: PlayerState)
    ensures Bottom(r) <= FLOOR
    ensures p.y + p.velY + GRAVITY + p.height >= FLOOR <==> (Bottom(r) == FLOOR && r.velY == 0.0 && r.onGround)
    ensures p.y + p.velY + GRAVITY + p.height < FLOOR ==>
      r.velY == p.velY + GRAVITY && r.y == p.y + r.velY && r.onGround == p.onGround
    ensures r.x == p.x && r.width == p.width && r.height == p.height
    ensures r.health == p.health && r.angle == p.angle && r.power == p.power
  {
    var v := p.velY + GRAVITY;
    var moved := p.(velY := v, y := p.y + v);
    if Bottom(moved) >= FLOOR then moved.(y := FLOOR - moved.height, velY := 0.0, onGround := true)
    else moved
  }

  /** `update`: input, then gravity. */
  function Update(p: PlayerState, keys: Keys): (r: PlayerState)
    ensures Bottom(r) <= FLOOR
    ensures r.x == HandleInput(p, keys).x
  {
    ApplyGravity(HandleInput(p, keys))
  }

  /** Standing on the floor: the state `apply_gravity` lands the player in. */
  predicate Standing(p: PlayerState) {
    Bottom(p) == FLOOR && p.velY == 0.0 && p.onGround
  }

  /** Without a jump, a standing player stays standing. */
  lemma {:induction false} StandingIsStable(p: PlayerState, keys: Keys)
    requires Standing(p) && !keys.z
    ensures Standing(Update(p, keys))
  {
    var h := HandleInput(p, keys);
    assert h.y + h.velY + GRAVITY + h.height >= FLOOR;
  }

  /** `n` frames of gravity alone. */
  function Fall(p: PlayerState, n: nat): PlayerState
    decreases n
  {
    if n == 0 then p else Fall(ApplyGravity(p), n - 1)
  }

  /** Height above the floor, in quarter pixels, after `k` frames of a
      jump: k(39 - k), since 10k - k(k+1)/4 == k(39 - k)/4. */
  function Rise(k: int): int {
    k * (39 - k)
  }

  /** Where a jump from the floor is after `k` frames of gravity, in the
      exact arithmetic of the model: speed -10 + k/2, bottom k(39 - k)/4
      above the floor, in the air. */
  predicate OnJumpArc(f: PlayerState, k: nat) {
    && !f.onGround
    && f.velY == JUMP_STRENGTH + (k as real) * GRAVITY
    && Bottom(f) == FLOOR - (Rise(k) as real) / 4.0
  }

  /** One frame along the arc: before the 38th frame, gravity keeps the
      player on the arc. */
  lemma JumpArcStep(g: PlayerState, k: nat)
    requires k < 38 && OnJumpArc(g, k)
    ensures OnJumpArc(ApplyGravity(g), k + 1)
  {
    assert Rise(k + 1) == Rise(k) + 38 - 2 * k;
    assert Rise(k + 1) > 0 by {
      assert Rise(k + 1) == (k + 1) * (38 - k);
      assert k + 1 > 0 && 38 - k > 0;
    }
    assert g.y + g.velY + GRAVITY + g.height == FLOOR - (Rise(k + 1) as real) / 4.0;
    assert Bottom(ApplyGravity(g)) == FLOOR - (Rise(k + 1) as real) / 4.0;
  }

  /** A jump from the floor stays airborne for 38 frames of gravity, along
      the arc. */
  lemma {:induction false} JumpArc(p: PlayerState, k: nat)
    requires Bottom(p) == FLOOR && p.velY == JUMP_STRENGTH && !p.onGround
    requires k <= 38
    ensures OnJumpArc(Fall(p, k), k)
    decreases k
  {
    if k > 0 {
      JumpArc(p, k - 1);
      FallSplit(p, k - 1);
      JumpArcStep(Fall(p, k - 1), k - 1);
    }
  }

  /** ... and on the 39th frame it is back on the floor, standing. */
  lemma {:induction false} JumpLands(p: PlayerState)
    requires Bottom(p) == FLOOR && p.velY == JUMP_STRENGTH && !p.onGround
    ensures Standing(Fall(p, 39))
  {
    JumpArc(p, 38);
    FallSplit(p, 38);
    assert OnJumpArc(Fall(p, 38), 38);
    assert Rise(38) == 38;
  }

  /** One more frame of falling is gravity applied after the others. */
  lemma {:induction false} FallSplit(p: PlayerState, n: nat)
    ensures Fall(p, n + 1) == ApplyGravity(Fall(p, n))
    decreases n
  {
    if n > 0 {
      FallSplit(ApplyGravity(p), n - 1);
    }
  }
}
