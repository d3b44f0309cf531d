/**
 * The arithmetic of the context-steering weight field of `AI.cs`, as pure
 * functions over sequences of reals. Directions are identified by their index
 * 0..N-1 (index order is increasing angle); every dot product against a
 * direction is an input. The class in module SteeringAgent updates its arrays
 * in place and is specified by the functions here.
 */
module ContextField {
  import opened Options

  /** Construction-time tuning of one agent (the serialized fields of `AI.cs`). */
  datatype Settings = Settings(
    desireKeepSameDir: real,
    noObstacleDesire: real,
    obstacleDistanceSensitivity: real,
    orbitRadius: real,
    orbitRadiusThickness: real,
    orbitOffset: real,
    minDistanceThreshold: real,
    biasThreshold: real,
    obstructionDetectionThreshold: real,
    maxObstructionChangeDir: real,
    minObstructionChangeDir: real)

  /** The sensor range is restricted to [0.01, 1000] by its inspector range. */
  ghost predicate ValidSettings(cfg: Settings) {
    0.01 <= cfg.obstacleDistanceSensitivity <= 1000.0
  }

  /** A heading the agent commits to: the zero vector, or one of the N directions. */
  datatype Heading = Still | Toward(index: nat)

  ghost predicate ValidHeading(h: Heading, n: nat) {
    h.Toward? ==> h.index < n
  }

  /**
   * The dot products between the N directions: dirDot[i][j] is dot(dir i, dir j).
   * The directions are unit vectors, so every entry lies in [-1, 1] and the
   * diagonal is 1.
   */
  ghost predicate DotTable(dirDot: seq<seq<real>>, n: nat) {
    && |dirDot| == n
    && (forall i | 0 <= i < n :: |dirDot[i]| == n)
    && (forall i, j | 0 <= i < n && 0 <= j < n :: -1.0 <= dirDot[i][j] <= 1.0)
    && (forall i | 0 <= i < n :: dirDot[i][i] == 1.0)
  }

  /** dot(dir i, h); the zero vector has dot product 0 with every direction. */
  function HeadingDot(dirDot: seq<seq<real>>, i: nat, h: Heading): real
    requires i < |dirDot| && (h.Toward? ==> h.index < |dirDot[i]|)
  {
    match h
    case Still => 0.0
    case Toward(j) => dirDot[i][j]
  }

  function Abs(x: real): real {
    if x < 0.0 then -x else x
  }

  /** Mathf.Clamp. */
  function Clamp(x: real, lo: real, hi: real): (r: real)
    requires lo <= hi
    ensures lo <= r <= hi
    ensures lo <= x <= hi ==> r == x
    ensures x < lo ==> r == lo
    ensures hi < x ==> r == hi
  {
    if x < lo then lo else if x > hi then hi else x
  }

  function Zeros(n: nat): (r: seq<real>)
    ensures |r| == n && forall i | 0 <= i < n :: r[i] == 0.0
  {
    seq(n, _ => 0.0)
  }

  // ---------------------------------------------------------------------------
  // Circular neighbours and the propagation of a contribution to them
  // ---------------------------------------------------------------------------

  /** (i + k) % n, as the source indexes forward neighbours. */
  function Up(i: nat, k: nat, n: nat): (j: nat)
    requires n > 0
    ensures j < n
  {
    (i + k) % n
  }

  /** (i - k) >= 0 ? i - k : i - k + n, as the source indexes backward neighbours. */
  function Down(i: nat, k: nat, n: nat): (j: nat)
    requires i < n && k <= n
    ensures j < n
  {
    if i - k >= 0 then i - k else i - k + n
  }

  /**
   * Adds `a` to w[i], a/2 to w[i+1], a/3 to w[i+2], a/2 to w[i-1] and a/3 to
   * w[i-2] (indices circular), one after the other in that order. The short
   * range sensor calls it with a = -penalty, the long range estimator with the
   * (negative) wall estimate.
   */
  function Spread(w: seq<real>, i: nat, a: real): (r: seq<real>)
    requires 4 <= |w| && i < |w|
    ensures |r| == |w|
  {
    var n := |w|;
    var w1 := w[i := w[i] + a];
    var w2 := w1[Up(i, 1, n) := w1[Up(i, 1, n)] + a / 2.0];
    var w3 := w2[Up(i, 2, n) := w2[Up(i, 2, n)] + a / 3.0];
    var w4 := w3[Down(i, 1, n) := w3[Down(i, 1, n)] + a / 2.0];
    w4[Down(i, 2, n) := w4[Down(i, 2, n)] + a / 3.0]
  }

  /** The fraction of a contribution at direction i that lands on direction k. */
  function Share(n: nat, i: nat, k: nat): (r: real)
    requires 4 <= n && i < n
    ensures 0.0 <= r
  {
    (if k == i then 1.0 else 0.0)
    + (if k == Up(i, 1, n) then 1.0 / 2.0 else 0.0)
    + (if k == Up(i, 2, n) then 1.0 / 3.0 else 0.0)
    + (if k == Down(i, 1, n) then 1.0 / 2.0 else 0.0)
    + (if k == Down(i, 2, n) then 1.0 / 3.0 else 0.0)
  }

  /** Spreading `a` from i changes every direction k by exactly a * Share(n, i, k). */
  lemma SpreadAt(w: seq<real>, i: nat, a: real, k: nat)
    requires 4 <= |w| && i < |w| && k < |w|
    ensures Spread(w, i, a)[k] == w[k] + a * Share(|w|, i, k)
  {
  }

  lemma SpreadAll(w: seq<real>, i: nat, a: real)
    requires 4 <= |w| && i < |w|
    ensures forall k | 0 <= k < |w| :: Spread(w, i, a)[k] == w[k] + a * Share(|w|, i, k)
  {
    forall k | 0 <= k < |w| ensures Spread(w, i, a)[k] == w[k] + a * Share(|w|, i, k) {
      SpreadAt(w, i, a, k);
    }
  }

  /**
   * With five or more directions the five touched indices are distinct: the
   * ratios are exactly 1 : 1/2 : 1/2 : 1/3 : 1/3, and nothing else is touched.
   */
  lemma ShareProfile(n: nat, i: nat)
    requires 5 <= n && i < n
    ensures Share(n, i, i) == 1.0
    ensures Share(n, i, Up(i, 1, n)) == 1.0 / 2.0 && Share(n, i, Down(i, 1, n)) == 1.0 / 2.0
    ensures Share(n, i, Up(i, 2, n)) == 1.0 / 3.0 && Share(n, i, Down(i, 2, n)) == 1.0 / 3.0
    ensures forall k | 0 <= k < n && k != i && k != Up(i, 1, n) && k != Up(i, 2, n)
                       && k != Down(i, 1, n) && k != Down(i, 2, n) :: Share(n, i, k) == 0.0
  {
    UpValue(i, 1, n);
    UpValue(i, 2, n);
  }

  /** Up without the modulus: one wrap at most. */
  lemma UpValue(i: nat, k: nat, n: nat)
    requires i < n && k <= n
    ensures Up(i, k, n) == if i + k < n then i + k else i + k - n
  {
    if i + k >= n {
      assert i + k == n + (i + k - n);
    }
  }

  /** With four directions i+2 and i-2 coincide, so that index loses 2/3 of the contribution. */
  lemma ShareFour(i: nat)
    requires i < 4
    ensures Up(i, 2, 4) == Down(i, 2, 4)
    ensures Share(4, i, i) == 1.0
    ensures Share(4, i, Up(i, 1, 4)) == 1.0 / 2.0 && Share(4, i, Down(i, 1, 4)) == 1.0 / 2.0
    ensures Share(4, i, Up(i, 2, 4)) == 2.0 / 3.0
  {
    UpValue(i, 1, 4);
    UpValue(i, 2, 4);
  }

  // ---------------------------------------------------------------------------
  // Short range obstacle sensor (AI.cs ObstacleDetection)
  // ---------------------------------------------------------------------------

  /**
   * One hit of a short ray: its distance along the ray, whether the collider's
   * object has the agent's own name, and whether it carries the comrade tag.
   */
  datatype Hit = Hit(distance: real, isSelf: bool, isComrade: bool)

  /**
   * The hit-choosing loop: start from the last hit and take every hit that is
   * not self and strictly closer than the current choice, scanning from 0.
   */
  function ScanHits(hs: seq<Hit>, j: nat, best: nat): (r: nat)
    requires best < |hs| && j <= |hs|
    ensures r < |hs|
    decreases |hs| - j
  {
    if j == |hs| then best
    else ScanHits(hs, j + 1, if !hs[j].isSelf && hs[j].distance < hs[best].distance then j else best)
  }

  function SelectedHit(hs: seq<Hit>): (r: nat)
    requires |hs| > 0
    ensures r < |hs|
  {
    ScanHits(hs, 0, |hs| - 1)
  }

  /**
   * What the chosen hit is: the last hit, unless some non-self hit is strictly
   * closer than it, in which case the first non-self hit of least distance.
   */
  ghost predicate IsChosenHit(hs: seq<Hit>, c: int) {
    && 0 <= c < |hs|
    && if exists j | 0 <= j < |hs| :: !hs[j].isSelf && hs[j].distance < hs[|hs| - 1].distance then
         && !hs[c].isSelf
         && (forall j | 0 <= j < |hs| && !hs[j].isSelf :: hs[c].distance <= hs[j].distance)
         && (forall j | 0 <= j < c && !hs[j].isSelf :: hs[c].distance < hs[j].distance)
       else
         c == |hs| - 1
  }

  /**
   * What the hit-choosing loop knows after scanning hs[..j] with current choice
   * best: a choice other than the last hit is a non-self hit strictly closer
   * than the last one and strictly closer than every earlier non-self hit, and
   * no non-self hit scanned so far is closer than the choice.
   */
  ghost predicate ScanInv(hs: seq<Hit>, j: nat, best: nat) {
    && 0 < |hs| && j <= |hs| && best < |hs|
    && (best != |hs| - 1 ==>
          && best < j && !hs[best].isSelf && hs[best].distance < hs[|hs| - 1].distance
          && forall k | 0 <= k < best && !hs[k].isSelf :: hs[best].distance < hs[k].distance)
    && (forall k | 0 <= k < j && !hs[k].isSelf :: hs[best].distance <= hs[k].distance)
  }

  lemma {:induction false} ScanHitsChosen(hs: seq<Hit>, j: nat, best: nat)
    requires ScanInv(hs, j, best)
    ensures IsChosenHit(hs, ScanHits(hs, j, best))
    decreases |hs| - j
  {
    if j < |hs| {
      var next := if !hs[j].isSelf && hs[j].distance < hs[best].distance then j else best;
      ScanHitsChosen(hs, j + 1, next);
    }
  }

  /** The hit the sensor loop picks is the one IsChosenHit describes. */
  lemma SelectedHitChosen(hs: seq<Hit>)
    requires |hs| > 0
    ensures IsChosenHit(hs, SelectedHit(hs))
  {
    ScanHitsChosen(hs, 0, |hs| - 1);
  }

  /**
   * The obstacle penalty of a hit: 1 - clamp(d / sensitivity, 0, 1), reshaped
   * to 1 - |p - 0.65| for a comrade while orbiting.
   */
  function Penalty(h: Hit, orbiting: bool, sensitivity: real): (p: real)
    requires sensitivity > 0.0
    ensures 0.0 <= p <= 1.0
    ensures orbiting && h.isComrade ==> 0.35 <= p
  {
    var near := 1.0 - Clamp(h.distance / sensitivity, 0.0, 1.0);
    if orbiting && h.isComrade then 1.0 - Abs(near - 0.65) else near
  }

  /**
   * Closer obstacles cost more; a touching obstacle costs 1 and one at the end
   * of the sensor range costs nothing (outside the comrade reshape).
   */
  lemma PenaltyShape(h1: Hit, h2: Hit, orbiting: bool, sensitivity: real)
    requires sensitivity > 0.0
    requires !(orbiting && h1.isComrade) && !(orbiting && h2.isComrade)
    ensures h1.distance <= h2.distance ==> Penalty(h1, orbiting, sensitivity) >= Penalty(h2, orbiting, sensitivity)
    ensures h1.distance <= 0.0 ==> Penalty(h1, orbiting, sensitivity) == 1.0
    ensures h1.distance >= sensitivity ==> Penalty(h1, orbiting, sensitivity) == 0.0
  {
    if h1.distance <= h2.distance {
      DivMonotone(h1.distance, h2.distance, sensitivity);
    }
    if h1.distance >= sensitivity {
      DivMonotone(sensitivity, h1.distance, sensitivity);
    }
    if h1.distance <= 0.0 {
      DivMonotone(h1.distance, 0.0, sensitivity);
    }
  }

  lemma DivMonotone(x: real, y: real, s: real)
    requires s > 0.0 && x <= y
    ensures x / s <= y / s
  {
    assert y / s - x / s == (y - x) / s;
  }

  /**
   * One iteration of the sensor loop for direction i with the ray's hits `hs`:
   * penalty and propagation if the chosen hit is not self, the reward
   * w += w * noObstacleDesire if it is self, nothing if there are no hits;
   * then the clamp of w[i] to [-1, 1].
   */
  function DetectStep(w: seq<real>, i: nat, hs: seq<Hit>, orbiting: bool, cfg: Settings): (r: seq<real>)
    requires 4 <= |w| && i < |w| && cfg.obstacleDistanceSensitivity > 0.0
    ensures |r| == |w|
  {
    var v := Respond(w, i, hs, orbiting, cfg);
    v[i := Clamp(v[i], -1.0, 1.0)]
  }

  /** The iteration's response to the ray before the clamp. */
  function Respond(w: seq<real>, i: nat, hs: seq<Hit>, orbiting: bool, cfg: Settings): (r: seq<real>)
    requires 4 <= |w| && i < |w| && cfg.obstacleDistanceSensitivity > 0.0
    ensures |r| == |w|
  {
    if |hs| == 0 then w
    else if hs[SelectedHit(hs)].isSelf then w[i := w[i] + w[i] * cfg.noObstacleDesire]
    else Spread(w, i, -Penalty(hs[SelectedHit(hs)], orbiting, cfg.obstacleDistanceSensitivity))
  }

  /** The sensor loop after its first k iterations. */
  function Detect(w: seq<real>, hits: seq<seq<Hit>>, k: nat, orbiting: bool, cfg: Settings): (r: seq<real>)
    requires 4 <= |w| && |hits| == |w| && k <= |w| && cfg.obstacleDistanceSensitivity > 0.0
    ensures |r| == |w|
    decreases k
  {
    if k == 0 then w else DetectStep(Detect(w, hits, k - 1, orbiting, cfg), k - 1, hits[k - 1], orbiting, cfg)
  }

  /** A ray without hits only clamps: no reward. */
  lemma StepNoHits(w: seq<real>, i: nat, hs: seq<Hit>, orbiting: bool, cfg: Settings)
    requires 4 <= |w| && i < |w| && cfg.obstacleDistanceSensitivity > 0.0
    requires |hs| == 0
    ensures DetectStep(w, i, hs, orbiting, cfg) == w[i := Clamp(w[i], -1.0, 1.0)]
  {
  }

  /**
   * A ray whose chosen hit is self rewards: the weight is multiplied by
   * 1 + noObstacleDesire (so zero stays zero), then clamped; nothing else changes.
   */
  lemma StepReward(w: seq<real>, i: nat, hs: seq<Hit>, orbiting: bool, cfg: Settings)
    requires 4 <= |w| && i < |w| && cfg.obstacleDistanceSensitivity > 0.0
    requires |hs| > 0 && hs[SelectedHit(hs)].isSelf
    ensures DetectStep(w, i, hs, orbiting, cfg) == w[i := Clamp(w[i] * (1.0 + cfg.noObstacleDesire), -1.0, 1.0)]
    ensures w[i] == 0.0 ==> DetectStep(w, i, hs, orbiting, cfg)[i] == 0.0
  {
    var v := Respond(w, i, hs, orbiting, cfg);
    var u := w[i := w[i] + w[i] * cfg.noObstacleDesire];
    assert |v| == |u| && forall k | 0 <= k < |v| :: v[k] == u[k];
    assert v == u;
    RewardFactor(w[i], cfg.noObstacleDesire);
    var r := DetectStep(w, i, hs, orbiting, cfg);
    var t := w[i := Clamp(w[i] * (1.0 + cfg.noObstacleDesire), -1.0, 1.0)];
    assert |r| == |t| && forall k | 0 <= k < |r| :: r[k] == t[k];
  }

  /**
   * A ray whose chosen hit is another object: its penalty p is taken in full
   * at i, then clamped into [-1, 1].
   */
  lemma StepPenaltyOwn(w: seq<real>, i: nat, hs: seq<Hit>, orbiting: bool, cfg: Settings)
    requires 4 <= |w| && i < |w| && cfg.obstacleDistanceSensitivity > 0.0
    requires |hs| > 0 && !hs[SelectedHit(hs)].isSelf
    ensures DetectStep(w, i, hs, orbiting, cfg)[i]
            == Clamp(w[i] - Penalty(hs[SelectedHit(hs)], orbiting, cfg.obstacleDistanceSensitivity), -1.0, 1.0)
  {
    var p := Penalty(hs[SelectedHit(hs)], orbiting, cfg.obstacleDistanceSensitivity);
    var sp := Spread(w, i, -p);
    var v := Respond(w, i, hs, orbiting, cfg);
    assert v == sp;
    ShareAtSelf(|w|, i);
    SpreadAt(w, i, -p, i);
  }

  /**
   * ... and every other direction k receives the propagated penalty unclamped,
   * which by SpreadSubtract is w[k] - p * Share(N, i, k).
   */
  lemma StepPenaltyOther(w: seq<real>, i: nat, hs: seq<Hit>, orbiting: bool, cfg: Settings, k: nat)
    requires 4 <= |w| && i < |w| && cfg.obstacleDistanceSensitivity > 0.0
    requires |hs| > 0 && !hs[SelectedHit(hs)].isSelf
    requires k < |w| && k != i
    ensures DetectStep(w, i, hs, orbiting, cfg)[k]
            == Spread(w, i, -Penalty(hs[SelectedHit(hs)], orbiting, cfg.obstacleDistanceSensitivity))[k]
  {
    var p := Penalty(hs[SelectedHit(hs)], orbiting, cfg.obstacleDistanceSensitivity);
    var sp := Spread(w, i, -p);
    var v := Respond(w, i, hs, orbiting, cfg);
    assert v == sp;
  }

  /** A non-negative penalty never raises a direction. */
  lemma SpreadLowers(w: seq<real>, i: nat, p: real, k: nat)
    requires 4 <= |w| && i < |w| && k < |w| && 0.0 <= p
    ensures Spread(w, i, -p)[k] <= w[k]
  {
    SpreadSubtract(w, i, p, k);
    MulNonNeg(p, Share(|w|, i, k));
  }

  lemma RewardFactor(x: real, d: real)
    ensures x + x * d == x * (1.0 + d)
  {
  }

  /** Spreading a penalty p lowers direction k by exactly p * Share(n, i, k). */
  lemma SpreadSubtract(w: seq<real>, i: nat, p: real, k: nat)
    requires 4 <= |w| && i < |w| && k < |w|
    ensures Spread(w, i, -p)[k] == w[k] - p * Share(|w|, i, k)
  {
    SpreadAt(w, i, -p, k);
    assert (-p) * Share(|w|, i, k) == -(p * Share(|w|, i, k));
  }

  lemma MulNonNeg(p: real, x: real)
    requires p >= 0.0 && x >= 0.0
    ensures p * x >= 0.0
  {
  }

  lemma ShareAtSelf(n: nat, i: nat)
    requires 4 <= n && i < n
    ensures Share(n, i, i) == 1.0
  {
    UpValue(i, 1, n);
    UpValue(i, 2, n);
  }

  /** One iteration never raises any weight other than its own, and leaves its own within [-1, 1]. */
  lemma StepLowersOthers(w: seq<real>, i: nat, hs: seq<Hit>, orbiting: bool, cfg: Settings)
    requires 4 <= |w| && i < |w| && cfg.obstacleDistanceSensitivity > 0.0
    ensures forall k | 0 <= k < |w| && k != i :: DetectStep(w, i, hs, orbiting, cfg)[k] <= w[k]
    ensures -1.0 <= DetectStep(w, i, hs, orbiting, cfg)[i] <= 1.0
  {
    if |hs| > 0 && !hs[SelectedHit(hs)].isSelf {
      StepPenaltyOwn(w, i, hs, orbiting, cfg);
      var p := Penalty(hs[SelectedHit(hs)], orbiting, cfg.obstacleDistanceSensitivity);
      var r := DetectStep(w, i, hs, orbiting, cfg);
      forall k | 0 <= k < |w| && k != i
        ensures r[k] <= w[k]
      {
        StepPenaltyOther(w, i, hs, orbiting, cfg, k);
        SpreadLowers(w, i, p, k);
      }
    } else if |hs| > 0 {
      StepReward(w, i, hs, orbiting, cfg);
    } else {
      StepNoHits(w, i, hs, orbiting, cfg);
    }
  }

  /**
   * Every weight already processed is at most 1 (after the whole loop: every
   * weight). There is no matching lower bound: see DetectBelowMinusOne.
   */
  lemma {:induction false} DetectUpperBound(w: seq<real>, hits: seq<seq<Hit>>, m: nat, orbiting: bool, cfg: Settings)
    requires 4 <= |w| && |hits| == |w| && m <= |w| && cfg.obstacleDistanceSensitivity > 0.0
    ensures forall k | 0 <= k < m :: Detect(w, hits, m, orbiting, cfg)[k] <= 1.0
  {
    if m > 0 {
      DetectUpperBound(w, hits, m - 1, orbiting, cfg);
      StepLowersOthers(Detect(w, hits, m - 1, orbiting, cfg), m - 1, hits[m - 1], orbiting, cfg);
    }
  }

  /**
   * Penalties from later iterations reach weights that were already clamped:
   * with four directions all at -1 and one touching obstacle on direction 3,
   * direction 0 ends at -1.5.
   */
  lemma DetectBelowMinusOne(cfg: Settings)
    requires cfg.obstacleDistanceSensitivity > 0.0
    ensures Detect([-1.0, -1.0, -1.0, -1.0], [[], [], [], [Hit(0.0, false, false)]], 4, false, cfg)[0] == -1.5
  {
    var w := [-1.0, -1.0, -1.0, -1.0];
    var hits: seq<seq<Hit>> := [[], [], [], [Hit(0.0, false, false)]];
    assert Detect(w, hits, 1, false, cfg) == w;
    assert Detect(w, hits, 2, false, cfg) == w;
    assert Detect(w, hits, 3, false, cfg) == w;
    var hs := hits[3];
    assert SelectedHit(hs) == 0;
    assert Penalty(hs[0], false, cfg.obstacleDistanceSensitivity) == 1.0;
    SpreadAt(w, 3, -1.0, 0);
    assert Share(4, 3, 0) == 1.0 / 2.0;
  }

  /**
   * With no hits anywhere and weights already within [-1, 1] the sensor leaves
   * the field as it is (no reward without a hit).
   */
  lemma {:induction false} DetectClearField(w: seq<real>, hits: seq<seq<Hit>>, m: nat, orbiting: bool, cfg: Settings)
    requires 4 <= |w| && |hits| == |w| && m <= |w| && cfg.obstacleDistanceSensitivity > 0.0
    requires forall k | 0 <= k < |w| :: hits[k] == [] && -1.0 <= w[k] <= 1.0
    ensures Detect(w, hits, m, orbiting, cfg) == w
  {
    if m > 0 {
      DetectClearField(w, hits, m - 1, orbiting, cfg);
      StepNoHits(w, m - 1, hits[m - 1], orbiting, cfg);
    }
  }

  // ---------------------------------------------------------------------------
  // Baseline scoring
  // ---------------------------------------------------------------------------

  /** Seek scoring: dot(dir, dirToTarget) + dot(dir, currentDir) * desireKeepSameDir. */
  function SeekBaseline(toTarget: seq<real>, toCurrent: seq<real>, keep: real): (r: seq<real>)
    requires |toTarget| == |toCurrent|
    ensures |r| == |toTarget|
  {
    seq(|toTarget|, i requires 0 <= i < |toTarget| => toTarget[i] + toCurrent[i] * keep)
  }

  /**
   * The orbit reshape 1 - |dot|: tangential directions score 1, the directions
   * towards and away from the target score 0, and of two directions the more
   * tangential one scores higher.
   */
  function OrbitShape(d: real): (r: real)
    ensures r <= 1.0 && (r == 1.0 <==> d == 0.0)
    ensures -1.0 <= d <= 1.0 ==> 0.0 <= r
    ensures (d == 1.0 || d == -1.0) ==> r == 0.0
  {
    1.0 - Abs(d)
  }

  lemma OrbitShapePrefersTangent(d1: real, d2: real)
    ensures Abs(d1) < Abs(d2) ==> OrbitShape(d1) > OrbitShape(d2)
  {
  }

  /** Orbit scoring: the seek score, with the target term reshaped while orbiting. */
  function OrbitBaseline(toTarget: seq<real>, toCurrent: seq<real>, keep: real, orbiting: bool): (r: seq<real>)
    requires |toTarget| == |toCurrent|
    ensures |r| == |toTarget|
  {
    seq(|toTarget|, i requires 0 <= i < |toTarget| =>
      (if orbiting then OrbitShape(toTarget[i]) else toTarget[i]) + toCurrent[i] * keep)
  }

  lemma OrbitBaselineWhenNotOrbiting(toTarget: seq<real>, toCurrent: seq<real>, keep: real)
    requires |toTarget| == |toCurrent|
    ensures OrbitBaseline(toTarget, toCurrent, keep, false) == SeekBaseline(toTarget, toCurrent, keep)
  {
  }

  // ---------------------------------------------------------------------------
  // Orbit hysteresis
  // ---------------------------------------------------------------------------

  /**
   * The orbiting flag after one tick at distance `dist` from the target: off
   * beyond radius + offset + thickness, on within radius + offset, unchanged in
   * the band between.
   */
  function NextOrbiting(was: bool, dist: real, radius: real, offset: real, thickness: real): (r: bool)
    ensures InBand(dist, radius, offset, thickness) ==> r == was
    ensures dist > radius + offset + thickness ==> !r
    ensures (dist <= radius + offset && dist <= radius + offset + thickness) ==> r
  {
    if dist > radius + offset + thickness then false
    else if dist <= radius + offset then true
    else was
  }

  ghost predicate InBand(dist: real, radius: real, offset: real, thickness: real) {
    radius + offset < dist <= radius + offset + thickness
  }

  /**
   * The flag after a run of ticks at the distances `ds`, first to last. It
   * differs from the starting flag only if some distance left the band.
   */
  function OrbitingAfter(was: bool, ds: seq<real>, radius: real, offset: real, thickness: real): (r: bool)
    ensures r == was || exists k | 0 <= k < |ds| :: !InBand(ds[k], radius, offset, thickness)
    decreases |ds|
  {
    if ds == [] then was
    else
      var r := OrbitingAfter(NextOrbiting(was, ds[0], radius, offset, thickness), ds[1..], radius, offset, thickness);
      assert r == was || !InBand(ds[0], radius, offset, thickness)
             || exists k | 0 <= k < |ds[1..]| :: !InBand(ds[1..][k], radius, offset, thickness);
      assert forall k | 0 <= k < |ds[1..]| :: ds[1..][k] == ds[k + 1];
      r
  }

  /** No flicker: any number of ticks inside the band leave the flag as it was. */
  lemma {:induction false} BandHolds(was: bool, ds: seq<real>, radius: real, offset: real, thickness: real)
    requires forall k | 0 <= k < |ds| :: InBand(ds[k], radius, offset, thickness)
    ensures OrbitingAfter(was, ds, radius, offset, thickness) == was
    decreases |ds|
  {
    if ds != [] {
      BandHolds(NextOrbiting(was, ds[0], radius, offset, thickness), ds[1..], radius, offset, thickness);
    }
  }

  /**
   * The flag after any history is decided by the last distance outside the
   * band: on if it was within radius + offset, off if it was beyond the band.
   */
  lemma {:induction false} LastExitDecides(was: bool, ds: seq<real>, k: nat, radius: real, offset: real, thickness: real)
    requires thickness >= 0.0
    requires k < |ds| && !InBand(ds[k], radius, offset, thickness)
    requires forall j | k < j < |ds| :: InBand(ds[j], radius, offset, thickness)
    ensures OrbitingAfter(was, ds, radius, offset, thickness) == (ds[k] <= radius + offset)
    decreases k
  {
    var next := NextOrbiting(was, ds[0], radius, offset, thickness);
    if k == 0 {
      BandHolds(next, ds[1..], radius, offset, thickness);
    } else {
      LastExitDecides(next, ds[1..], k - 1, radius, offset, thickness);
    }
  }

  // ---------------------------------------------------------------------------
  // Arg-max with first-wins ties
  // ---------------------------------------------------------------------------

  /** i holds a maximal weight and no earlier index holds one as large. */
  ghost predicate IsFirstMax(s: seq<real>, i: int) {
    && 0 <= i < |s|
    && (forall k | 0 <= k < |s| :: s[k] <= s[i])
    && (forall k | 0 <= k < i :: s[k] < s[i])
  }

  function FirstMax(s: seq<real>): (i: nat)
    requires |s| > 0
    ensures IsFirstMax(s, i)
  {
    if |s| == 1 then 0
    else
      var j := FirstMax(s[..|s| - 1]);
      if s[|s| - 1] > s[j] then |s| - 1 else j
  }

  lemma FirstMaxUnique(s: seq<real>, i: int, j: int)
    requires IsFirstMax(s, i) && IsFirstMax(s, j)
    ensures i == j
  {
    assert s[i] <= s[j] && s[j] <= s[i];
  }

  // ---------------------------------------------------------------------------
  // Obstruction lock (AI.cs PathObstruction)
  // ---------------------------------------------------------------------------

  /**
   * The lock's persistent state: whether the path is obstructed, the escape
   * heading and escape index (unobstructedDir and unobstructedIndex, which
   * need not agree), and the agent's chosen heading newDir.
   */
  datatype Lock = Lock(obstructed: bool, escapeDir: Heading, escapeIndex: nat, newDir: Heading)

  /** While locked, every weight gains 0.4 * dot(dir, escape heading). */
  function EscapeBias(w: seq<real>, dirDot: seq<seq<real>>, h: Heading): (r: seq<real>)
    requires DotTable(dirDot, |w|) && ValidHeading(h, |w|)
    ensures |r| == |w|
  {
    seq(|w|, i requires 0 <= i < |w| => w[i] + HeadingDot(dirDot, i, h) * 0.4)
  }

  /**
   * The locked-state scan starts from the value -1 and index 0: it finds the
   * first maximal weight if that weight exceeds -1, and nothing otherwise.
   */
  function FloorScan(b: seq<real>): (r: Option<nat>)
    requires |b| > 0
    ensures r.Some? <==> exists k | 0 <= k < |b| :: b[k] > -1.0
    ensures r.Some? ==> IsFirstMax(b, r.value)
  {
    var m := FirstMax(b);
    if b[m] > -1.0 then Some(m) else None
  }

  /** The value the scan ends with: max(-1, largest weight). */
  function FloorMax(b: seq<real>): (v: real)
    requires |b| > 0
    ensures v >= -1.0 && forall k | 0 <= k < |b| :: b[k] <= v || b[k] <= -1.0
    ensures v == -1.0 || exists k | 0 <= k < |b| :: b[k] == v
  {
    var f := FloorScan(b);
    if f.Some? then b[f.value] else -1.0
  }

  /** The condition for moving the escape heading: the scan's best beats maxChange, or the escape weight fell below minChange. */
  predicate EscapeSwitch(s: Lock, b: seq<real>, cfg: Settings)
    requires s.escapeIndex < |b|
  {
    FloorMax(b) > cfg.maxObstructionChangeDir || b[s.escapeIndex] < cfg.minObstructionChangeDir
  }

  /** The locked branch of PathObstruction, on the already biased weights b. */
  function LockedStep(s: Lock, b: seq<real>, largestIndex: nat, cfg: Settings): (r: Lock)
    requires s.escapeIndex < |b| && largestIndex < |b|
    ensures r.escapeIndex < |b|
  {
    var found := FloorScan(b);
    var scanIndex := if found.Some? then found.value else 0;
    var scanDir := if found.Some? then Toward(found.value) else s.newDir;
    var change := EscapeSwitch(s, b, cfg);
    var escDir := if change then scanDir else s.escapeDir;
    var escIndex := if change then scanIndex else s.escapeIndex;
    if b[escIndex] >= cfg.obstructionDetectionThreshold then Lock(false, escDir, escIndex, Toward(largestIndex))
    else Lock(true, escDir, escIndex, escDir)
  }

  /** The whole of PathObstruction: the locked branch, then the Clear-to-Locked test. */
  function LockStep(s: Lock, b: seq<real>, largestWeight: real, largestIndex: nat, cfg: Settings): (r: Lock)
    requires s.escapeIndex < |b| && largestIndex < |b|
    ensures r.escapeIndex < |b|
    ensures !s.obstructed ==> (r.obstructed <==> largestWeight < cfg.obstructionDetectionThreshold)
  {
    var s1 := if s.obstructed then LockedStep(s, b, largestIndex, cfg) else s;
    if !s1.obstructed && largestWeight < cfg.obstructionDetectionThreshold then
      Lock(true, s1.newDir, largestIndex, s1.newDir)
    else s1
  }

  /** Clear and the best weight at least the threshold: nothing changes. */
  lemma ClearStaysClear(s: Lock, b: seq<real>, largestWeight: real, largestIndex: nat, cfg: Settings)
    requires s.escapeIndex < |b| && largestIndex < |b|
    requires !s.obstructed && largestWeight >= cfg.obstructionDetectionThreshold
    ensures LockStep(s, b, largestWeight, largestIndex, cfg) == s
  {
  }

  /** Clear and the best weight below the threshold: lock onto the best index, keeping the current heading. */
  lemma ClearLocks(s: Lock, b: seq<real>, largestWeight: real, largestIndex: nat, cfg: Settings)
    requires s.escapeIndex < |b| && largestIndex < |b|
    requires !s.obstructed && largestWeight < cfg.obstructionDetectionThreshold
    ensures LockStep(s, b, largestWeight, largestIndex, cfg) == Lock(true, s.newDir, largestIndex, s.newDir)
  {
  }

  /** While locked, the escape index moves only when EscapeSwitch holds, and then to the scan's result. */
  lemma EscapeMovesOnlyOnSwitch(s: Lock, b: seq<real>, largestIndex: nat, cfg: Settings)
    requires s.escapeIndex < |b| && largestIndex < |b|
    ensures !EscapeSwitch(s, b, cfg) ==> LockedStep(s, b, largestIndex, cfg).escapeIndex == s.escapeIndex
                                          && LockedStep(s, b, largestIndex, cfg).escapeDir == s.escapeDir
    ensures EscapeSwitch(s, b, cfg) ==>
              LockedStep(s, b, largestIndex, cfg).escapeIndex == (if FloorScan(b).Some? then FirstMax(b) else 0)
    ensures EscapeSwitch(s, b, cfg) ==>
              LockedStep(s, b, largestIndex, cfg).escapeDir == (if FloorScan(b).Some? then Toward(FirstMax(b)) else s.newDir)
  {
  }

  /** The locked branch releases exactly when the (possibly moved) escape direction scores at least the threshold. */
  lemma ReleaseExactlyWhenClear(s: Lock, b: seq<real>, largestIndex: nat, cfg: Settings)
    requires s.escapeIndex < |b| && largestIndex < |b|
    ensures var r := LockedStep(s, b, largestIndex, cfg);
            !r.obstructed <==> b[r.escapeIndex] >= cfg.obstructionDetectionThreshold
    ensures var r := LockedStep(s, b, largestIndex, cfg);
            if r.obstructed then r.newDir == r.escapeDir else r.newDir == Toward(largestIndex)
  {
  }

  /**
   * Locked, no switch and the escape direction still below the threshold: the
   * agent keeps heading along the escape heading and the lock stays.
   */
  lemma LockHoldsCourse(s: Lock, b: seq<real>, largestWeight: real, largestIndex: nat, cfg: Settings)
    requires s.escapeIndex < |b| && largestIndex < |b|
    requires s.obstructed && !EscapeSwitch(s, b, cfg) && b[s.escapeIndex] < cfg.obstructionDetectionThreshold
    ensures LockStep(s, b, largestWeight, largestIndex, cfg) == s.(newDir := s.escapeDir)
  {
  }

  /** A release and a best weight below the threshold re-lock in the same call, onto the best index. */
  lemma ReleaseThenRelock(s: Lock, b: seq<real>, largestWeight: real, largestIndex: nat, cfg: Settings)
    requires s.escapeIndex < |b| && largestIndex < |b|
    requires s.obstructed && !LockedStep(s, b, largestIndex, cfg).obstructed
    requires largestWeight < cfg.obstructionDetectionThreshold
    ensures var r := LockStep(s, b, largestWeight, largestIndex, cfg);
            r.obstructed && r.escapeIndex == largestIndex && r.escapeDir == Toward(largestIndex) && r.newDir == Toward(largestIndex)
  {
  }

  // ---------------------------------------------------------------------------
  // Long range estimator (AI.cs IndirectMoveTowardsTarget)
  // ---------------------------------------------------------------------------

  /**
   * What the long range estimator learns about one direction: dot(dir,
   * dirToTarget); whether the unbounded ray hit a wall and the hit's distance
   * (the ray cast reports 0 when it hits nothing); whether the segment from
   * past that point to the target is free of walls, and that segment's length.
   */
  datatype Probe = Probe(toTarget: real, hitWall: bool, wallDistance: real, clearPast: bool, newDistToTarget: real)

  /** A wall blocks the direction when the ray meets one no farther than the target. */
  predicate Blocked(p: Probe, dist: real) {
    p.hitWall && p.wallDistance <= dist
  }

  /** The second-order check runs for tangential or backward directions. */
  predicate SecondOrder(p: Probe) {
    OrbitShape(p.toTarget) > 0.2 || p.toTarget < -0.2
  }

  /**
   * The wall estimate of a blocked direction: with distFromWallToTarget =
   * distToWall * dot, the penalty (dist - distFromWallToTarget) * -1.
   */
  function WallPenalty(p: Probe, dist: real): (r: real)
    ensures 0.0 <= p.wallDistance <= dist && -1.0 <= p.toTarget <= 1.0 ==> r <= 0.0
  {
    WallBeforeTarget(p.wallDistance, p.toTarget, dist);
    (dist - p.wallDistance * p.toTarget) * -1.0
  }

  /** A wall no farther than the target is no farther along the target's direction either. */
  lemma WallBeforeTarget(d: real, dot: real, dist: real)
    ensures 0.0 <= d <= dist && -1.0 <= dot <= 1.0 ==> d * dot <= dist
  {
    if 0.0 <= d <= dist && -1.0 <= dot <= 1.0 {
      assert d * dot <= d * 1.0 by { MulNonNeg(d, 1.0 - dot); }
    }
  }

  /** The gain of an open direction: dist * 2 - (dist - dist * dot). */
  function OpenGain(p: Probe, dist: real): (r: real)
    ensures r == dist * (1.0 + p.toTarget)
    ensures 0.0 <= dist && -1.0 <= p.toTarget ==> 0.0 <= r
  {
    GainNonNeg(dist, p.toTarget);
    dist * 2.0 - (dist - dist * p.toTarget)
  }

  lemma GainNonNeg(dist: real, dot: real)
    ensures 0.0 <= dist && -1.0 <= dot ==> 0.0 <= dist * (1.0 + dot)
  {
    if 0.0 <= dist && -1.0 <= dot {
      MulNonNeg(dist, 1.0 + dot);
    }
  }

  /** The first-order term of one direction: spread the wall penalty if blocked, else add the open gain. */
  function FirstOrderStep(w: seq<real>, i: nat, p: Probe, dist: real): (r: seq<real>)
    requires 4 <= |w| && i < |w|
    ensures |r| == |w|
  {
    if Blocked(p, dist) then Spread(w, i, WallPenalty(p, dist))
    else w[i := w[i] + OpenGain(p, dist)]
  }

  /** The second-order bonus dist * 2 - newDistToTarget when the check runs and finds no wall. */
  function SecondOrderStep(w: seq<real>, i: nat, p: Probe, dist: real): (r: seq<real>)
    requires i < |w|
    ensures |r| == |w|
  {
    if SecondOrder(p) && p.clearPast then w[i := w[i] + (dist * 2.0 - p.newDistToTarget)] else w
  }

  /** One iteration of the accumulation loop for direction i. */
  function LongRangeStep(w: seq<real>, i: nat, p: Probe, dist: real): (r: seq<real>)
    requires 4 <= |w| && i < |w|
    ensures |r| == |w|
  {
    SecondOrderStep(FirstOrderStep(w, i, p, dist), i, p, dist)
  }

  /** The accumulation loop after its first k iterations. */
  function LongRange(w: seq<real>, probes: seq<Probe>, dist: real, k: nat): (r: seq<real>)
    requires 4 <= |w| && |probes| == |w| && k <= |w|
    ensures |r| == |w|
    decreases k
  {
    if k == 0 then w else LongRangeStep(LongRange(w, probes, dist, k - 1), k - 1, probes[k - 1], dist)
  }

  /** The second-order term adds dist * 2 - newDistToTarget to direction i alone, and only when the check runs and finds no wall. */
  lemma SecondOrderAt(w: seq<real>, i: nat, p: Probe, dist: real, k: nat)
    requires i < |w| && k < |w|
    ensures SecondOrderStep(w, i, p, dist)[k]
            == w[k] + if k == i && SecondOrder(p) && p.clearPast then dist * 2.0 - p.newDistToTarget else 0.0
  {
  }

  /** The first-order term's effect on direction k: the spread wall penalty when blocked, else the open gain on i alone. */
  lemma FirstOrderAt(w: seq<real>, i: nat, p: Probe, dist: real, k: nat)
    requires 4 <= |w| && i < |w| && k < |w|
    ensures FirstOrderStep(w, i, p, dist)[k]
            == w[k] + if Blocked(p, dist) then WallPenalty(p, dist) * Share(|w|, i, k)
                      else if k == i then OpenGain(p, dist) else 0.0
  {
    if Blocked(p, dist) {
      SpreadAt(w, i, WallPenalty(p, dist), k);
    }
  }

  /**
   * One iteration of the estimator for direction i, as its effect on direction
   * k: a blocked direction spreads its wall penalty by Share, an open one adds
   * its gain to itself, and the second-order bonus goes to direction i.
   */
  lemma LongRangeStepAt(w: seq<real>, i: nat, p: Probe, dist: real, k: nat)
    requires 4 <= |w| && i < |w| && k < |w|
    ensures LongRangeStep(w, i, p, dist)[k]
            == w[k]
               + (if Blocked(p, dist) then WallPenalty(p, dist) * Share(|w|, i, k)
                  else if k == i then OpenGain(p, dist) else 0.0)
               + (if k == i && SecondOrder(p) && p.clearPast then dist * 2.0 - p.newDistToTarget else 0.0)
  {
    var f := FirstOrderStep(w, i, p, dist);
    FirstOrderAt(w, i, p, dist, k);
    SecondOrderAt(f, i, p, dist, k);
  }

  /**
   * With no wall before the target, each scanned direction gains
   * dist * (1 + dot(dir, dirToTarget)), plus the second-order bonus where the
   * check runs and the path past the probe is clear; the others keep their
   * weight.
   */
  lemma {:induction false} LongRangeOpenField(w: seq<real>, probes: seq<Probe>, dist: real, m: nat)
    requires 4 <= |w| && |probes| == |w| && m <= |w|
    requires forall k | 0 <= k < |w| :: !Blocked(probes[k], dist)
    ensures forall k | 0 <= k < |w| ::
              LongRange(w, probes, dist, m)[k]
              == if k < m then
                   w[k] + dist * (1.0 + probes[k].toTarget)
                   + (if SecondOrder(probes[k]) && probes[k].clearPast then dist * 2.0 - probes[k].newDistToTarget else 0.0)
                 else w[k]
  {
    if m > 0 {
      LongRangeOpenField(w, probes, dist, m - 1);
      var prev := LongRange(w, probes, dist, m - 1);
      forall k | 0 <= k < |w|
        ensures LongRange(w, probes, dist, m)[k]
                == prev[k]
                   + (if k == m - 1 then OpenGain(probes[m - 1], dist) else 0.0)
                   + (if k == m - 1 && SecondOrder(probes[m - 1]) && probes[m - 1].clearPast
                      then dist * 2.0 - probes[m - 1].newDistToTarget else 0.0)
      {
        LongRangeStepAt(prev, m - 1, probes[m - 1], dist, k);
      }
    }
  }
  /**
   * A blocked direction, with the wall no farther than the target: by the
   * wall estimate, which is never positive, the direction and its neighbours
   * are lowered in the 1 : 1/2 : 1/3 profile of Share, and no direction rises.
   */
  lemma LongRangeBlocked(w: seq<real>, i: nat, p: Probe, dist: real, k: nat)
    requires 4 <= |w| && i < |w| && k < |w|
    requires Blocked(p, dist) && 0.0 <= p.wallDistance && -1.0 <= p.toTarget <= 1.0
    ensures WallPenalty(p, dist) <= 0.0
    ensures FirstOrderStep(w, i, p, dist)[k] == w[k] + WallPenalty(p, dist) * Share(|w|, i, k)
    ensures FirstOrderStep(w, i, p, dist)[k] <= w[k]
  {
    var a := WallPenalty(p, dist);
    SpreadAt(w, i, a, k);
    MulNonNeg(-a, Share(|w|, i, k));
  }


  /** The top-two scan: largest starts at index 0, second at index 1, scanning from 1. */
  function TopTwoFrom(s: seq<real>, i: nat, l: nat, sec: nat): (r: (nat, nat))
    requires 2 <= |s| && i <= |s| && l < |s| && sec < |s|
    ensures r.0 < |s| && r.1 < |s|
    decreases |s| - i
  {
    if i == |s| then (l, sec)
    else if s[i] > s[l] then TopTwoFrom(s, i + 1, i, l)
    else if s[i] > s[sec] then TopTwoFrom(s, i + 1, l, i)
    else TopTwoFrom(s, i + 1, l, sec)
  }

  function TopTwoIndices(s: seq<real>): (r: (nat, nat))
    requires 2 <= |s|
    ensures r.0 < |s| && r.1 < |s|
  {
    TopTwoFrom(s, 1, 0, 1)
  }

  /** l is the first maximum, sec differs from it and holds the maximum over the other indices. */
  ghost predicate IsTopTwo(s: seq<real>, l: nat, sec: nat) {
    && IsFirstMax(s, l)
    && sec < |s| && sec != l
    && forall k | 0 <= k < |s| && k != l :: s[k] <= s[sec]
  }

  ghost predicate TopTwoSoFar(s: seq<real>, i: nat, l: nat, sec: nat) {
    && i <= |s| && l < i && l < |s| && sec < |s| && sec != l
    && (forall k | 0 <= k < i :: s[k] <= s[l])
    && (forall k | 0 <= k < l :: s[k] < s[l])
    && (forall k | 0 <= k < i && k != l :: s[k] <= s[sec])
  }

  lemma {:induction false} TopTwoFromCorrect(s: seq<real>, i: nat, l: nat, sec: nat)
    requires 2 <= |s| && TopTwoSoFar(s, i, l, sec)
    ensures IsTopTwo(s, TopTwoFrom(s, i, l, sec).0, TopTwoFrom(s, i, l, sec).1)
    decreases |s| - i
  {
    if i < |s| {
      if s[i] > s[l] {
        TopTwoFromCorrect(s, i + 1, i, l);
      } else if s[i] > s[sec] {
        TopTwoFromCorrect(s, i + 1, l, i);
      } else {
        TopTwoFromCorrect(s, i + 1, l, sec);
      }
    }
  }

  lemma TopTwoCorrect(s: seq<real>)
    requires 2 <= |s|
    ensures IsTopTwo(s, TopTwoIndices(s).0, TopTwoIndices(s).1)
  {
    TopTwoFromCorrect(s, 1, 0, 1);
  }

  /**
   * The anti-greedy choice: the second best when the top two differ by less
   * than biasThreshold, the best otherwise.
   */
  function AntiGreedy(s: seq<real>, l: nat, sec: nat, bias: real): (d: nat)
    requires l < |s| && sec < |s|
    ensures d == l || d == sec
  {
    if Abs(s[l] - s[sec]) < bias then sec else l
  }

  /** On a top-two pair the gap is never negative, so the second best is chosen exactly when the gap is under the bias. */
  lemma AntiGreedyChoice(s: seq<real>, bias: real)
    requires 2 <= |s|
    ensures var (l, sec) := TopTwoIndices(s);
            (AntiGreedy(s, l, sec, bias) == sec <==> s[l] - s[sec] < bias)
            && (AntiGreedy(s, l, sec, bias) == l <==> s[l] - s[sec] >= bias)
  {
    TopTwoCorrect(s);
  }

  /**
   * CheckForDirectPath: a ray of length dist against walls finds no collider
   * exactly when every wall on the ray (given by its distance) lies beyond dist.
   */
  function CheckForDirectPath(wallDistances: seq<real>, dist: real): (clear: bool)
    ensures clear <==> forall k | 0 <= k < |wallDistances| :: wallDistances[k] > dist
  {
    |wallDistances| == 0 || (wallDistances[0] > dist && CheckForDirectPath(wallDistances[1..], dist))
  }
}
