/** The distance estimates of the perception code: the pinhole-camera formula
    distance = focus * real size / apparent size, in C integer arithmetic,
    applied to the radius of the biggest circle found (the hill) and to the
    height of the enemy's outline. */
module Vision {
  import opened SharedState

  const POINT_OF_FOCUS: int := 210
  const HILL_REAL_RADIUS: int := 20
  const ENEMY_REAL_HEIGHT: int := 25
  /** Radius limits given to the circle search, in pixels. */
  const HOUGH_MIN_RADIUS: int := 20
  const HOUGH_MAX_RADIUS: int := 200

  function Abs(x: int): nat
  {
    if x < 0 then -x else x
  }

  lemma DivNonNegative(x: nat, y: nat)
    requires y > 0
    ensures x / y >= 0
  {
  }

  /** Floor division of naturals brackets the dividend. */
  lemma DivBracket(x: nat, y: nat)
    requires y > 0
    ensures (x / y) * y <= x < (x / y + 1) * y
  {
    assert x == (x / y) * y + x % y;
    assert (x / y + 1) * y == (x / y) * y + y;
  }

  /** C integer division: the magnitude of the quotient is that of floor
      division of the magnitudes, and its sign is the product of the signs
      (truncation toward zero). */
  function CDiv(a: int, b: int): (q: int)
    requires b != 0
    ensures Abs(q) == Abs(a) / Abs(b)
    ensures q == 0 || ((q > 0) <==> ((a > 0) == (b > 0)))
  {
    var x, y := Abs(a), Abs(b);
    DivNonNegative(x, y);
    var m := x / y;
    if (a < 0) == (b < 0) then m else -m
  }

  /** The truncated quotient brackets the dividend by the divisor. */
  lemma CDivBracket(a: int, b: int)
    requires b != 0
    ensures Abs(CDiv(a, b)) * Abs(b) <= Abs(a) < (Abs(CDiv(a, b)) + 1) * Abs(b)
  {
    DivBracket(Abs(a), Abs(b));
  }

  /** Estimated hill distance, in centimetres, for an apparent radius. */
  function HillDistance(pixelRadius: int): (d: int)
    requires pixelRadius != 0
    ensures pixelRadius > 0 ==> d * pixelRadius <= POINT_OF_FOCUS * HILL_REAL_RADIUS < (d + 1) * pixelRadius
  {
    CDiv(POINT_OF_FOCUS * HILL_REAL_RADIUS, pixelRadius)
  }

  /** Estimated enemy distance, in centimetres, for an apparent height. */
  function EnemyDistance(pixelHeight: int): (d: int)
    requires pixelHeight != 0
    ensures pixelHeight > 0 ==> d * pixelHeight <= POINT_OF_FOCUS * ENEMY_REAL_HEIGHT < (d + 1) * pixelHeight
  {
    CDiv(POINT_OF_FOCUS * ENEMY_REAL_HEIGHT, pixelHeight)
  }

  lemma MulMonotone(x: nat, y: nat, c: nat)
    requires x <= y
    ensures x * c <= y * c
  {
  }

  /** Floor division of a natural does not grow as the divisor grows. */
  lemma DivAntitone(n: nat, a: nat, b: nat)
    requires 0 < a <= b
    ensures n / b <= n / a
  {
    DivNonNegative(n, a);
    DivNonNegative(n, b);
    var qa: nat, qb: nat := n / a, n / b;
    DivBracket(n, a);
    DivBracket(n, b);
    if qb > qa {
      MulMonotone(qa + 1, qb, a);
      MulMonotone(a, b, qb);
      assert false;
    }
  }

  /** For positive sizes, truncated division of a fixed non-negative
      numerator does not grow as the divisor grows. */
  lemma QuotientAntitone(n: nat, a: int, b: int)
    requires 0 < a <= b
    ensures CDiv(n, b) <= CDiv(n, a)
  {
    DivAntitone(n, a, b);
  }

  /** A bigger apparent hill is never estimated to be farther away. */
  lemma DistanceAntitone(a: int, b: int)
    requires 0 < a <= b
    ensures HillDistance(b) <= HillDistance(a)
    ensures EnemyDistance(b) <= EnemyDistance(a)
  {
    QuotientAntitone(POINT_OF_FOCUS * HILL_REAL_RADIUS, a, b);
    QuotientAntitone(POINT_OF_FOCUS * ENEMY_REAL_HEIGHT, a, b);
  }

  /** Every radius the circle search can report gives a distance between 21
      and 210 centimetres. */
  lemma HillDistanceRange(pixelRadius: int)
    requires HOUGH_MIN_RADIUS <= pixelRadius <= HOUGH_MAX_RADIUS
    ensures 21 <= HillDistance(pixelRadius) <= 210
  {
    DistanceAntitone(HOUGH_MIN_RADIUS, pixelRadius);
    DistanceAntitone(pixelRadius, HOUGH_MAX_RADIUS);
    assert HillDistance(HOUGH_MAX_RADIUS) == 21;
    assert HillDistance(HOUGH_MIN_RADIUS) == 210;
  }

  /** Whether a distance update went through or the division trapped. */
  datatype Outcome = Measured | DivisionByZero

  /** The perception file's own globals: the last apparent hill radius and
      the apparent enemy height, both zero at start. */
  class Detector {
    var pixelRadius: int
    var pixelHeight: int

    constructor ()
      ensures pixelRadius == 0 && pixelHeight == 0
    {
      pixelRadius, pixelHeight := 0, 0;
    }

    /** The measurement part of the hill recogniser.  `circleRadii` are the
        rounded radii the circle search returned, biggest first; only the
        first one is kept.  With no radius known yet the division traps. */
    method RecognizeHills(g: GameState, circleRadii: seq<int>) returns (outcome: Outcome)
      modifies this`pixelRadius, g`hillDistance
      ensures pixelRadius == if |circleRadii| > 0 then circleRadii[0] else old(pixelRadius)
      ensures outcome == Measured <==> pixelRadius != 0
      ensures outcome == Measured ==> g.hillDistance == HillDistance(pixelRadius)
      ensures outcome == DivisionByZero ==> g.hillDistance == old(g.hillDistance)
    {
      var i := 0;
      while i < |circleRadii|
        invariant 0 <= i <= |circleRadii|
        invariant pixelRadius == if i > 0 then circleRadii[0] else old(pixelRadius)
        invariant g.hillDistance == old(g.hillDistance)
      {
        if i == 0 {
          pixelRadius := circleRadii[i];
        }
        i := i + 1;
      }
      if pixelRadius == 0 {
        outcome := DivisionByZero;
      } else {
        g.hillDistance := HillDistance(pixelRadius);
        outcome := Measured;
      }
    }

    /** The measurement part of the enemy recogniser: it divides by the
        apparent height, which nothing ever assigns. */
    method RecognizeEnemy(g: GameState) returns (outcome: Outcome)
      modifies g`enemyDistance
      ensures outcome == Measured <==> pixelHeight != 0
      ensures outcome == Measured ==> g.enemyDistance == EnemyDistance(pixelHeight)
      ensures outcome == DivisionByZero ==> g.enemyDistance == old(g.enemyDistance)
    {
      if pixelHeight == 0 {
        outcome := DivisionByZero;
      } else {
        g.enemyDistance := EnemyDistance(pixelHeight);
        outcome := Measured;
      }
    }
  }
}
