/** The drone-logic thread: each cycle chooses, from the shared sighting
    flags and distances, which behaviour branch runs.  The branch bodies are
    still to be written in the game, so the model is the choice itself. */
module DroneLogic {
  import opened SharedState

  /** The sighting branch taken during a match. */
  datatype SightingBranch =
    | ApproachHill      // hill between the minimum and maximum distance
    | ReachHill         // hill closer than the minimum distance
    | HillIdle          // hill in sight, no band matched
    | BackUp            // enemy too close
    | Shoot             // enemy in shooting range
    | MoveTowardEnemy   // enemy beyond shooting range
    | EnemyIdle         // enemy in sight, no band matched
    | Search            // nothing in sight

  /** One cycle: outside a match the land branch; inside, the sighting branch
      and whether the wound branch runs. */
  datatype CycleBranch = Land | MatchCycle(sighting: SightingBranch, woundHandled: bool)

  /** The shared values a cycle reads. */
  datatype Snapshot = Snapshot(
    matchActive: int,
    hillInSight: int, hillDistance: int,
    enemyInSight: int, enemyDistance: int,
    droneWounded: int)

  predicate IsHillBranch(b: SightingBranch)
  {
    b == ApproachHill || b == ReachHill || b == HillIdle
  }

  predicate IsEnemyBranch(b: SightingBranch)
  {
    b == BackUp || b == Shoot || b == MoveTowardEnemy || b == EnemyIdle
  }

  /** The hill bands: strictly inside (min, max), strictly below min; the
      boundary min itself and everything from max up match no band. */
  function HillBranch(distance: int): (b: SightingBranch)
    ensures IsHillBranch(b)
    ensures b == ApproachHill <==> HILL_MIN_DISTANCE < distance < HILL_MAX_DISTANCE
    ensures b == ReachHill <==> distance < HILL_MIN_DISTANCE
    ensures b == HillIdle <==> distance == HILL_MIN_DISTANCE || distance >= HILL_MAX_DISTANCE
  {
    if HILL_MIN_DISTANCE < distance && distance < HILL_MAX_DISTANCE then ApproachHill
    else if distance < HILL_MIN_DISTANCE then ReachHill
    else HillIdle
  }

  /** The enemy bands: below min, strictly inside (min, shooting), strictly
      inside (shooting, max); min, shooting and everything from max up match
      no band. */
  function EnemyBranch(distance: int): (b: SightingBranch)
    ensures IsEnemyBranch(b)
    ensures b == BackUp <==> distance < ENEMY_MIN_DISTANCE
    ensures b == Shoot <==> ENEMY_MIN_DISTANCE < distance < ENEMY_SHOOTING_DISTANCE
    ensures b == MoveTowardEnemy <==> ENEMY_SHOOTING_DISTANCE < distance < ENEMY_MAX_DISTANCE
    ensures b == EnemyIdle <==>
              distance == ENEMY_MIN_DISTANCE || distance == ENEMY_SHOOTING_DISTANCE ||
              distance >= ENEMY_MAX_DISTANCE
  {
    if distance < ENEMY_MIN_DISTANCE then BackUp
    else if ENEMY_MIN_DISTANCE < distance && distance < ENEMY_SHOOTING_DISTANCE then Shoot
    else if ENEMY_SHOOTING_DISTANCE < distance && distance < ENEMY_MAX_DISTANCE then MoveTowardEnemy
    else EnemyIdle
  }

  /** One pass of the thread loop body. */
  function DecideCycle(s: Snapshot): (c: CycleBranch)
    ensures c == Land <==> s.matchActive == 0
    ensures c.MatchCycle? ==> c.woundHandled == (s.droneWounded != 0)
    ensures c.MatchCycle? ==> (IsHillBranch(c.sighting) <==> s.hillInSight != 0)
    ensures c.MatchCycle? ==> (IsEnemyBranch(c.sighting) <==> s.hillInSight == 0 && s.enemyInSight != 0)
    ensures c.MatchCycle? ==> (c.sighting == Search <==> s.hillInSight == 0 && s.enemyInSight == 0)
    ensures c.MatchCycle? && s.hillInSight != 0 ==> c.sighting == HillBranch(s.hillDistance)
    ensures c.MatchCycle? && s.hillInSight == 0 && s.enemyInSight != 0 ==>
              c.sighting == EnemyBranch(s.enemyDistance)
  {
    if s.matchActive != 0 then
      var sighting :=
        if s.hillInSight != 0 then HillBranch(s.hillDistance)
        else if s.enemyInSight != 0 then EnemyBranch(s.enemyDistance)
        else Search;
      MatchCycle(sighting, s.droneWounded != 0)
    else
      Land
  }

  /** A hill in sight wins over an enemy in sight: the enemy values are not
      consulted. */
  lemma HillHasPriority(s: Snapshot, enemyInSight: int, enemyDistance: int)
    requires s.matchActive != 0 && s.hillInSight != 0
    ensures DecideCycle(s) == DecideCycle(s.(enemyInSight := enemyInSight, enemyDistance := enemyDistance))
    ensures DecideCycle(s).sighting == HillBranch(s.hillDistance)
  {
  }

  /** A distance whose target is out of sight is never consulted, so a stale
      value left from an earlier frame cannot change the decision. */
  lemma StaleDistancesIgnored(s: Snapshot, hillDistance: int, enemyDistance: int)
    ensures s.hillInSight == 0 ==> DecideCycle(s) == DecideCycle(s.(hillDistance := hillDistance))
    ensures s.enemyInSight == 0 || s.hillInSight != 0 ==>
              DecideCycle(s) == DecideCycle(s.(enemyDistance := enemyDistance))
  {
  }

  /** During a match, with no hill and the enemy in sight closer than the
      minimum distance, the drone backs up; an enemy exactly at the minimum
      distance triggers no action. */
  lemma EnemyTooCloseBacksUp(s: Snapshot)
    requires s.matchActive != 0 && s.hillInSight == 0 && s.enemyInSight != 0
    ensures DecideCycle(s).sighting == BackUp <==> s.enemyDistance < ENEMY_MIN_DISTANCE
    ensures s.enemyDistance == ENEMY_MIN_DISTANCE ==> DecideCycle(s).sighting == EnemyIdle
  {
  }

  /** Outside a match nothing but the land branch runs, whatever is in sight. */
  lemma NoMatchOnlyLands(s: Snapshot)
    requires s.matchActive == 0
    ensures DecideCycle(s) == Land
  {
  }

  /** The wound branch runs in every match cycle with the drone wounded,
      whichever sighting branch was taken. */
  lemma WoundCheckedEveryCycle(s: Snapshot)
    requires s.matchActive != 0 && s.droneWounded != 0
    ensures DecideCycle(s).woundHandled
  {
  }

  /** Every action band is reachable: with the configured thresholds each
      band is non-empty. */
  lemma EveryBandReachable()
    ensures exists d :: HillBranch(d) == ApproachHill
    ensures exists d :: HillBranch(d) == ReachHill
    ensures exists d :: EnemyBranch(d) == BackUp
    ensures exists d :: EnemyBranch(d) == Shoot
    ensures exists d :: EnemyBranch(d) == MoveTowardEnemy
  {
    assert HillBranch(HILL_MIN_DISTANCE + 1) == ApproachHill;
    assert HillBranch(HILL_MIN_DISTANCE - 1) == ReachHill;
    assert EnemyBranch(ENEMY_MIN_DISTANCE - 1) == BackUp;
    assert EnemyBranch(ENEMY_MIN_DISTANCE + 1) == Shoot;
    assert EnemyBranch(ENEMY_SHOOTING_DISTANCE + 1) == MoveTowardEnemy;
  }

  /** The enemy bands are ordered: every distance that backs up is below every
      shooting distance, which is below every distance that moves closer. */
  lemma EnemyBandsOrdered(d1: int, d2: int, d3: int)
    requires EnemyBranch(d1) == BackUp && EnemyBranch(d2) == Shoot && EnemyBranch(d3) == MoveTowardEnemy
    ensures d1 < d2 < d3
  {
  }
}
