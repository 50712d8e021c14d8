/** The game's shared state: the tuning constants and the process-wide flags,
    distances and scores that the game threads read and write.  Every flag is
    a C `int` used as a boolean (0 or non-zero). */
module SharedState {

  // Distance bands, in centimetres.
  const HILL_MIN_DISTANCE: int := 10
  const HILL_MAX_DISTANCE: int := 50
  const ERROR_FROM_CENTER_FOR_HILL: int := 5

  const ENEMY_MIN_DISTANCE: int := 20
  const ENEMY_MAX_DISTANCE: int := 50
  const ENEMY_SHOOTING_DISTANCE: int := 30
  const ERROR_FROM_CENTER_FOR_ENEMY: int := 5

  /** Shots in a full magazine. */
  const MAGAZINE_CAPACITY: int := 5

  /** The score both sides start a match with. */
  const INITIAL_SCORE: int := 10

  /** The shared globals.  `exitProgram` is the flag `ardrone_tool_exit`
      polls: the tool keeps running while it is non-zero. */
  class GameState {
    // lifecycle
    var gameActive: int
    var matchActive: int
    var exitProgram: int
    // sighting snapshot, written by the perception code
    var hillInSight: int
    var enemyInSight: int
    var hillDistance: int
    var enemyDistance: int
    var hillOffsetFromCenter: int
    var enemyOffsetFromCenter: int
    var droneAboveHill: int
    var enemyOnTarget: int
    // hits and scores
    var droneWounded: int
    var enemyWounded: int
    var droneScore: int
    var enemyScore: int
    var droneAddScore: int
    var enemyAddScore: int
    // video
    var activeCam: int

    /** The state at process start. */
    ghost predicate Initial()
      reads this
    {
      gameActive == 1 && matchActive == 0 && exitProgram == 1 &&
      hillInSight == 0 && enemyInSight == 0 &&
      hillDistance == 0 && enemyDistance == 0 &&
      hillOffsetFromCenter == 0 && enemyOffsetFromCenter == 0 &&
      droneAboveHill == 0 && enemyOnTarget == 0 &&
      droneWounded == 0 && enemyWounded == 0 &&
      droneScore == INITIAL_SCORE && enemyScore == INITIAL_SCORE &&
      droneAddScore == 0 && enemyAddScore == 0 &&
      activeCam == 0
    }

    /** The lifecycle flags hold 0 or 1, as every writer of them assigns. */
    ghost predicate LifecycleFlagsBoolean()
      reads this
    {
      gameActive in {0, 1} && matchActive in {0, 1} && exitProgram in {0, 1}
    }

    constructor ()
      ensures Initial() && LifecycleFlagsBoolean()
      ensures gameActive == 1 && matchActive == 0 && exitProgram == 1
    {
      gameActive, matchActive, exitProgram := 1, 0, 1;
      hillInSight, enemyInSight := 0, 0;
      hillDistance, enemyDistance := 0, 0;
      hillOffsetFromCenter, enemyOffsetFromCenter := 0, 0;
      droneAboveHill, enemyOnTarget := 0, 0;
      droneWounded, enemyWounded := 0, 0;
      droneScore, enemyScore := INITIAL_SCORE, INITIAL_SCORE;
      droneAddScore, enemyAddScore := 0, 0;
      activeCam := 0;
    }
  }
}
