/**
 The level counter of level_manager.py: levels 1 to `maxLevels`, and the goal
 line the player's centre must reach. The background images are left out.
 */
module LevelManager {
  import Player

  datatype Manager = Manager(currentLevel: int, maxLevels: int, goalLineX: int)

  /** Levels stay within 1..maxLevels. */
  predicate Inv(m: Manager) {
    1 <= m.currentLevel <= m.maxLevels
  }

  /** `LevelManager.__init__`. */
  function Init(): (m: Manager)
    ensures m.currentLevel == 1 && m.maxLevels == 3 && m.goalLineX == 750
    ensures Inv(m)
  {
    Manager(1, 3, 750)
  }

  /** `next_level`: the manager afterwards and whether a level remained. */
  function NextLevel(m: Manager): (r: (Manager, bool))
    ensures r.1 <==> m.currentLevel < m.maxLevels
    ensures r.1 ==> r.0 == m.(currentLevel := m.currentLevel + 1)
    ensures !r.1 ==> r.0 == m
    ensures Inv(m) ==> Inv(r.0)
  {
    if m.currentLevel < m.maxLevels then (m.(currentLevel := m.currentLevel + 1), true)
    else (m, false)
  }

  /** `check_level_complete`: the player's rectangle centre has reached the
      goal line. So a complete level has the rectangle's right edge at or past
      the line, and an incomplete one has its left edge short of it. */
  function CheckLevelComplete(m: Manager, p: Player.PlayerState): (r: bool)
    ensures r ==> p.x + p.width >= m.goalLineX
    ensures !r ==> p.x < m.goalLineX
  {
    Player.CenterX(p) >= m.goalLineX
  }

  /** A player placed with `Player.NewPlayer` has its centre where it was
      placed: the level is complete from the start exactly when the player
      is placed at or past the goal line. */
  lemma CompleteAtSpawn(m: Manager, x: int, y: real, w: nat, h: real)
    ensures CheckLevelComplete(m, Player.NewPlayer(x, y, w, h)) <==> x >= m.goalLineX
  {
  }

  /** Completion only depends on how far right the player is: a player of
      the same width further right has completed the level too. */
  lemma CompleteIsMonotone(m: Manager, p: Player.PlayerState, q: Player.PlayerState)
    requires p.width == q.width && p.x <= q.x
    ensures CheckLevelComplete(m, p) ==> CheckLevelComplete(m, q)
  {
  }

  /** One frame moves the player at most `STEP` pixels, so a player more
      than `STEP` pixels short of the goal line has not completed the level
      after the frame, whatever the keys. */
  lemma {:induction false} NoCompletionFromAfar(m: Manager, p: Player.PlayerState, keys: Player.Keys)
    requires Player.CenterX(p) + Player.STEP < m.goalLineX
    ensures !CheckLevelComplete(m, Player.Update(p, keys))
  {
    assert Player.Update(p, keys).width == p.width;
    assert Player.CenterX(Player.Update(p, keys)) <= Player.CenterX(p) + Player.STEP;
  }

  /** With the initial manager the goal line is at x = 750, and stepping
      right never undoes reaching it. */
  lemma GoalLineOfInit(p: Player.PlayerState, keys: Player.Keys)
    requires keys.d && !keys.q
    ensures CheckLevelComplete(Init(), p) <==> Player.CenterX(p) >= 750
    ensures CheckLevelComplete(Init(), p) ==> CheckLevelComplete(Init(), Player.HandleInput(p, keys))
  {
  }

  /** `n` calls of `next_level`. */
  function Advance(m: Manager, n: nat): Manager
    decreases n
  {
    if n == 0 then m else Advance(NextLevel(m).0, n - 1)
  }

  /** From a fresh manager, `n` calls of `next_level` reach level
      min(1 + n, 3): the game has exactly three levels, and `next_level`
      answers true exactly twice. */
  lemma {:induction false} AdvanceFromInit(n: nat)
    ensures Advance(Init(), n).currentLevel == if n < 2 then 1 + n else 3
    ensures NextLevel(Advance(Init(), n)).1 <==> n < 2
  {
    AdvanceStops(Init(), n);
  }

  lemma {:induction false} AdvanceStops(m: Manager, n: nat)
    requires Inv(m)
    ensures Advance(m, n).currentLevel ==
      if m.currentLevel + n < m.maxLevels then m.currentLevel + n else m.maxLevels
    ensures Advance(m, n).maxLevels == m.maxLevels
    decreases n
  {
    if n > 0 {
      AdvanceStops(NextLevel(m).0, n - 1);
    }
  }
}
