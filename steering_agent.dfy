/**
 * The steering agent of `AI.cs` as a class: the two weight arrays are updated
 * in place by the same loops as the source, and every method is specified by
 * the functions of module ContextField.
 */
module SteeringAgent {
  import opened Options
  import opened ContextField

  /** The hit-choosing loop of the sensor (one ray's hits, scanned from 0). */
  method ChooseHit(hs: seq<Hit>) returns (chosen: nat)
    requires |hs| > 0
    ensures chosen == SelectedHit(hs)
    ensures IsChosenHit(hs, chosen)
  {
    chosen := |hs| - 1;
    var j := 0;
    while j < |hs|
      invariant 0 <= j <= |hs| && chosen < |hs|
      invariant ScanHits(hs, j, chosen) == SelectedHit(hs)
    {
      if !hs[j].isSelf && hs[j].distance < hs[chosen].distance {
        chosen := j;
      }
      j := j + 1;
    }
    SelectedHitChosen(hs);
  }

  /**
   * Adds `amount` at i, amount/2 at i+1 and i-1 and amount/3 at i+2 and i-2,
   * circularly, in the source's order (used with a negative amount by both
   * sensors).
   */
  method Propagate(a: array<real>, i: nat, amount: real)
    requires 4 <= a.Length && i < a.Length
    modifies a
    ensures a[..] == Spread(old(a[..]), i, amount)
  {
    var n := a.Length;
    a[i] := a[i] + amount;
    a[(i + 1) % n] := a[(i + 1) % n] + amount / 2.0;
    a[(i + 2) % n] := a[(i + 2) % n] + amount / 3.0;
    var d1 := if i - 1 >= 0 then i - 1 else i - 1 + n;
    a[d1] := a[d1] + amount / 2.0;
    var d2 := if i - 2 >= 0 then i - 2 else i - 2 + n;
    a[d2] := a[d2] + amount / 3.0;
  }

  /** The arg-max loop: strict `>` from index 0, so the first maximum wins. */
  method FirstMaxScan(a: array<real>) returns (largest: real, index: nat)
    requires a.Length > 0
    ensures IsFirstMax(a[..], index) && largest == a[index]
    ensures index == FirstMax(a[..])
  {
    largest := a[0];
    index := 0;
    var i := 1;
    while i < a.Length
      invariant 1 <= i <= a.Length && index < i
      invariant largest == a[index]
      invariant forall k | 0 <= k < i :: a[k] <= largest
      invariant forall k | 0 <= k < index :: a[k] < largest
    {
      if a[i] > largest {
        index := i;
        largest := a[i];
      }
      i := i + 1;
    }
    FirstMaxUnique(a[..], index, FirstMax(a[..]));
  }

  /**
   * The long range top-two loop: largest starts at index 0, second at index 1,
   * both updated with strict comparisons from index 1.
   */
  method TopTwoScan(a: array<real>) returns (l: nat, sec: nat)
    requires a.Length >= 2
    ensures (l, sec) == TopTwoIndices(a[..])
    ensures IsTopTwo(a[..], l, sec)
  {
    l, sec := 0, 1;
    var largest, second := a[0], a[1];
    var i := 1;
    while i < a.Length
      invariant 1 <= i <= a.Length && l < a.Length && sec < a.Length
      invariant largest == a[l] && second == a[sec]
      invariant TopTwoFrom(a[..], i, l, sec) == TopTwoIndices(a[..])
    {
      if a[i] > largest {
        second, sec := largest, l;
        largest, l := a[i], i;
      } else if a[i] > second {
        second, sec := a[i], i;
      }
      i := i + 1;
    }
    TopTwoCorrect(a[..]);
  }
  /**
   * One steering agent. The direction vectors are fixed at construction and
   * enter only through dirDot (their pairwise dot products); the dot products
   * against the target direction and against currentDir are supplied per call,
   * because currentDir is smoothed by Move, which is not part of this model.
   */
  class Agent {
    const n: nat
    const cfg: Settings
    const dirDot: seq<seq<real>>
    const weights: array<real>
    const longRangeWeights: array<real>
    var isOrbiting: bool
    var pathObstructed: bool
    var unobstructedIndex: nat
    var unobstructedDir: Heading
    var newDir: Heading
    var canMove: bool

    ghost predicate Valid()
      reads this
    {
      && 4 <= n <= 24
      && weights.Length == n && longRangeWeights.Length == n
      && weights != longRangeWeights
      && DotTable(dirDot, n)
      && unobstructedIndex < n
      && ValidHeading(unobstructedDir, n) && ValidHeading(newDir, n)
      && ValidSettings(cfg)
    }

    /** The obstruction lock's part of the state. */
    ghost function LockState(): Lock
      reads this
    {
      Lock(pathObstructed, unobstructedDir, unobstructedIndex, newDir)
    }

    /** Start: N zero weights in each array, headings at the zero vector, free to move. */
    constructor (numOfWeights: nat, settings: Settings, dots: seq<seq<real>>)
      requires 4 <= numOfWeights <= 24
      requires DotTable(dots, numOfWeights) && ValidSettings(settings)
      ensures Valid()
      ensures n == numOfWeights && cfg == settings && dirDot == dots
      ensures fresh(weights) && fresh(longRangeWeights)
      ensures weights[..] == Zeros(n) && longRangeWeights[..] == Zeros(n)
      ensures !isOrbiting && !pathObstructed && unobstructedIndex == 0
      ensures unobstructedDir == Still && newDir == Still && canMove
    {
      n := numOfWeights;
      cfg := settings;
      dirDot := dots;
      weights := new real[numOfWeights](_ => 0.0);
      longRangeWeights := new real[numOfWeights](_ => 0.0);
      isOrbiting := false;
      pathObstructed := false;
      unobstructedIndex := 0;
      unobstructedDir := Still;
      newDir := Still;
      canMove := true;
    }

    method SetCanMove(b: bool)
      modifies this`canMove
      ensures canMove == b
    {
      canMove := b;
    }

    /** The seek baseline loop: every weight is overwritten from its two dot products. */
    method ScoreSeek(toTarget: seq<real>, toCurrent: seq<real>)
      requires Valid() && |toTarget| == n && |toCurrent| == n
      modifies weights
      ensures weights[..] == SeekBaseline(toTarget, toCurrent, cfg.desireKeepSameDir)
    {
      for i := 0 to n
        invariant forall k | 0 <= k < i :: weights[k] == toTarget[k] + toCurrent[k] * cfg.desireKeepSameDir
      {
        var w := toTarget[i];
        weights[i] := w;
        var w2 := toCurrent[i];
        weights[i] := weights[i] + w2 * cfg.desireKeepSameDir;
      }
      var b := SeekBaseline(toTarget, toCurrent, cfg.desireKeepSameDir);
      assert |weights[..]| == |b| && forall k | 0 <= k < n :: weights[..][k] == b[k];
    }

    /** The orbit baseline loop: the target term is reshaped to 1 - |dot| while orbiting. */
    method ScoreOrbit(toTarget: seq<real>, toCurrent: seq<real>)
      requires Valid() && |toTarget| == n && |toCurrent| == n
      modifies weights
      ensures weights[..] == OrbitBaseline(toTarget, toCurrent, cfg.desireKeepSameDir, isOrbiting)
    {
      for i := 0 to n
        invariant forall k | 0 <= k < i ::
          weights[k] == (if isOrbiting then OrbitShape(toTarget[k]) else toTarget[k]) + toCurrent[k] * cfg.desireKeepSameDir
      {
        var w := toTarget[i];
        if isOrbiting {
          w := 1.0 - Abs(w);
        }
        weights[i] := w;
        var w2 := toCurrent[i];
        weights[i] := weights[i] + w2 * cfg.desireKeepSameDir;
      }
      var b := OrbitBaseline(toTarget, toCurrent, cfg.desireKeepSameDir, isOrbiting);
      assert |weights[..]| == |b| && forall k | 0 <= k < n :: weights[..][k] == b[k];
    }

    /** The orbit hysteresis at distance dist from the target. */
    method UpdateOrbiting(dist: real)
      modifies this`isOrbiting
      ensures dist > cfg.orbitRadius + cfg.orbitOffset + cfg.orbitRadiusThickness ==> !isOrbiting
      ensures (dist <= cfg.orbitRadius + cfg.orbitOffset + cfg.orbitRadiusThickness
               && dist <= cfg.orbitRadius + cfg.orbitOffset) ==> isOrbiting
      ensures InBand(dist, cfg.orbitRadius, cfg.orbitOffset, cfg.orbitRadiusThickness) ==> isOrbiting == old(isOrbiting)
      ensures isOrbiting == NextOrbiting(old(isOrbiting), dist, cfg.orbitRadius, cfg.orbitOffset, cfg.orbitRadiusThickness)
    {
      if dist > cfg.orbitRadius + cfg.orbitOffset + cfg.orbitRadiusThickness {
        isOrbiting := false;
      } else if dist <= cfg.orbitRadius + cfg.orbitOffset {
        isOrbiting := true;
      }
    }

    /**
     * The short range sensor: hits[i] are the hits of the ray along direction
     * i. Afterwards every weight is at most 1 (no lower bound holds).
     */
    method ObstacleDetection(hits: seq<seq<Hit>>, orbiting: bool)
      requires Valid() && |hits| == n
      modifies weights
      ensures weights[..] == Detect(old(weights[..]), hits, n, orbiting, cfg)
      ensures forall k | 0 <= k < n :: weights[k] <= 1.0
    {
      ghost var w0 := weights[..];
      for i := 0 to n
        invariant weights[..] == Detect(w0, hits, i, orbiting, cfg)
      {
        SenseDirection(i, hits[i], orbiting);
      }
      DetectUpperBound(w0, hits, n, orbiting, cfg);
    }

    /** One iteration of the sensor loop: respond to the ray's hits, then clamp w[i]. */
    method SenseDirection(i: nat, hs: seq<Hit>, orbiting: bool)
      requires Valid() && i < n
      modifies weights
      ensures weights[..] == DetectStep(old(weights[..]), i, hs, orbiting, cfg)
    {
      ghost var w := weights[..];
      ghost var v := Respond(w, i, hs, orbiting, cfg);
      if |hs| > 0 {
        var c := ChooseHit(hs);
        if !hs[c].isSelf {
          var negativeWeight := Penalty(hs[c], orbiting, cfg.obstacleDistanceSensitivity);
          Propagate(weights, i, -negativeWeight);
          assert v == Spread(w, i, -negativeWeight);
        } else {
          weights[i] := weights[i] + weights[i] * cfg.noObstacleDesire;
          assert |weights[..]| == |v| && forall k | 0 <= k < n :: weights[..][k] == v[k];
        }
      }
      assert weights[..] == v;
      weights[i] := Clamp(weights[i], -1.0, 1.0);
      assert weights[..] == v[i := Clamp(v[i], -1.0, 1.0)];
    }

    /** The arg-max loop; its result also becomes newDir. */
    method ChooseHeading() returns (largestWeight: real, largestWeightIndex: nat)
      requires Valid()
      modifies this`newDir
      ensures Valid()
      ensures IsFirstMax(weights[..], largestWeightIndex) && largestWeight == weights[largestWeightIndex]
      ensures largestWeightIndex == FirstMax(weights[..]) && newDir == Toward(largestWeightIndex)
    {
      largestWeight, largestWeightIndex := FirstMaxScan(weights);
      newDir := Toward(largestWeightIndex);
    }
    /**
     * MoveTowardsTarget() on the target transform: nothing happens unless the
     * agent can move and has a target; otherwise seek scoring, the sensor
     * without the orbit reshape, and the arg-max heading.
     */
    method MoveTowardsTarget(hasTarget: bool, toTarget: seq<real>, toCurrent: seq<real>, hits: seq<seq<Hit>>)
      requires Valid() && |toTarget| == n && |toCurrent| == n && |hits| == n
      modifies weights, this`newDir
      ensures Valid()
      ensures !(canMove && hasTarget) ==> weights[..] == old(weights[..]) && newDir == old(newDir)
      ensures canMove && hasTarget ==>
                && weights[..] == Detect(SeekBaseline(toTarget, toCurrent, cfg.desireKeepSameDir), hits, n, false, cfg)
                && newDir == Toward(FirstMax(weights[..]))
    {
      if !canMove || !hasTarget {
        return;
      }
      ScoreSeek(toTarget, toCurrent);
      ObstacleDetection(hits, false);
      var largestWeight, largestWeightIndex := ChooseHeading();
    }

    /**
     * MoveTowardsTarget(targetPosition): `moved` is the source's return value;
     * `stopped` says the rigidbody's velocity was set to zero because the
     * agent is already within minDistanceThreshold of the position.
     */
    method MoveTowardsPosition(dist: real, toTarget: seq<real>, toCurrent: seq<real>, hits: seq<seq<Hit>>)
      returns (moved: bool, stopped: bool)
      requires Valid() && |toTarget| == n && |toCurrent| == n && |hits| == n
      modifies weights, this`newDir
      ensures Valid()
      ensures moved <==> canMove && dist >= cfg.minDistanceThreshold
      ensures stopped <==> canMove && dist < cfg.minDistanceThreshold
      ensures !moved ==> weights[..] == old(weights[..]) && newDir == old(newDir)
      ensures moved ==>
                && weights[..] == Detect(SeekBaseline(toTarget, toCurrent, cfg.desireKeepSameDir), hits, n, false, cfg)
                && newDir == Toward(FirstMax(weights[..]))
    {
      moved, stopped := false, false;
      if !canMove {
        return;
      }
      if dist < cfg.minDistanceThreshold {
        stopped := true;
        return;
      }
      ScoreSeek(toTarget, toCurrent);
      ObstacleDetection(hits, false);
      var largestWeight, largestWeightIndex := ChooseHeading();
      moved := true;
    }

    /**
     * Both OrbitAroundTarget overloads (hasTarget is always true for the one
     * taking a position): the hysteresis update at distance dist, orbit
     * scoring, the sensor with the comrade reshape while orbiting, and the
     * arg-max heading.
     */
    method OrbitAroundTarget(hasTarget: bool, dist: real, toTarget: seq<real>, toCurrent: seq<real>, hits: seq<seq<Hit>>)
      requires Valid() && |toTarget| == n && |toCurrent| == n && |hits| == n
      modifies weights, this`newDir, this`isOrbiting
      ensures Valid()
      ensures !(canMove && hasTarget) ==>
                weights[..] == old(weights[..]) && newDir == old(newDir) && isOrbiting == old(isOrbiting)
      ensures canMove && hasTarget ==>
                && isOrbiting == NextOrbiting(old(isOrbiting), dist, cfg.orbitRadius, cfg.orbitOffset, cfg.orbitRadiusThickness)
                && weights[..] == Detect(OrbitBaseline(toTarget, toCurrent, cfg.desireKeepSameDir, isOrbiting), hits, n, isOrbiting, cfg)
                && newDir == Toward(FirstMax(weights[..]))
    {
      if !canMove || !hasTarget {
        return;
      }
      UpdateOrbiting(dist);
      ScoreOrbit(toTarget, toCurrent);
      ObstacleDetection(hits, isOrbiting);
      var largestWeight, largestWeightIndex := ChooseHeading();
    }

    /**
     * The obstruction lock. While locked the weights are biased towards the
     * escape heading and rescanned (from the floor -1); the pair of escape
     * fields and newDir then follow LockStep.
     */
    method PathObstruction(largestWeight: real, largestWeightIndex: nat)
      requires Valid() && largestWeightIndex < n
      modifies weights, this`pathObstructed, this`unobstructedDir, this`unobstructedIndex, this`newDir
      ensures Valid()
      ensures weights[..] == if old(pathObstructed) then EscapeBias(old(weights[..]), dirDot, old(unobstructedDir))
                             else old(weights[..])
      ensures LockState() == LockStep(old(LockState()), weights[..], largestWeight, largestWeightIndex, cfg)
    {
      if pathObstructed {
        EscapeScan(largestWeightIndex);
      }
      if !pathObstructed && largestWeight < cfg.obstructionDetectionThreshold {
        pathObstructed := true;
        unobstructedDir := newDir;
        unobstructedIndex := largestWeightIndex;
      }
    }

    /** The locked branch of PathObstruction. */
    method EscapeScan(largestWeightIndex: nat)
      requires Valid() && largestWeightIndex < n && pathObstructed
      modifies weights, this`pathObstructed, this`unobstructedDir, this`unobstructedIndex, this`newDir
      ensures Valid()
      ensures weights[..] == EscapeBias(old(weights[..]), dirDot, old(unobstructedDir))
      ensures LockState() == LockedStep(old(LockState()), weights[..], largestWeightIndex, cfg)
    {
      ghost var w0 := weights[..];
      var newLargestWeight := -1.0;
      var newLargestWeightIndex := 0;
      for i := 0 to n
        invariant unobstructedDir == old(unobstructedDir) && unobstructedIndex == old(unobstructedIndex)
        invariant pathObstructed
        invariant forall k | 0 <= k < i :: weights[k] == w0[k] + HeadingDot(dirDot, k, unobstructedDir) * 0.4
        invariant forall k | i <= k < n :: weights[k] == w0[k]
        invariant newLargestWeightIndex < n && -1.0 <= newLargestWeight
        invariant forall k | 0 <= k < i :: weights[k] <= newLargestWeight
        invariant newLargestWeight > -1.0 ==>
                    && newLargestWeightIndex < i && weights[newLargestWeightIndex] == newLargestWeight
                    && newDir == Toward(newLargestWeightIndex)
                    && forall k | 0 <= k < newLargestWeightIndex :: weights[k] < newLargestWeight
        invariant newLargestWeight == -1.0 ==> newLargestWeightIndex == 0 && newDir == old(newDir)
      {
        var w := HeadingDot(dirDot, i, unobstructedDir);
        weights[i] := weights[i] + w * 0.4;
        if weights[i] > newLargestWeight {
          newLargestWeight := weights[i];
          newLargestWeightIndex := i;
          newDir := Toward(i);
        }
      }
      ghost var b := EscapeBias(w0, dirDot, unobstructedDir);
      assert |weights[..]| == |b| && forall k | 0 <= k < n :: weights[..][k] == b[k];
      assert weights[..] == b;
      if newLargestWeight > -1.0 {
        FirstMaxUnique(b, newLargestWeightIndex, FirstMax(b));
      }
      assert newLargestWeight == FloorMax(b);
      if newLargestWeight > cfg.maxObstructionChangeDir || weights[unobstructedIndex] < cfg.minObstructionChangeDir {
        unobstructedDir := newDir;
        unobstructedIndex := newLargestWeightIndex;
      }
      newDir := unobstructedDir;
      if weights[unobstructedIndex] >= cfg.obstructionDetectionThreshold {
        newDir := Toward(largestWeightIndex);
        pathObstructed := false;
      }
    }

    /**
     * IndirectMoveTowardsTarget: reset the long range weights, accumulate one
     * probe per direction, then pick the best direction, or the second best
     * when the two are closer than biasThreshold. Returns a direction index.
     */
    method IndirectMoveTowardsTarget(probes: seq<Probe>, dist: real) returns (dir: nat)
      requires Valid() && |probes| == n
      modifies longRangeWeights
      ensures longRangeWeights[..] == LongRange(Zeros(n), probes, dist, n)
      ensures var (l, sec) := TopTwoIndices(longRangeWeights[..]);
              dir == AntiGreedy(longRangeWeights[..], l, sec, cfg.biasThreshold)
    {
      for i := 0 to n
        invariant forall k | 0 <= k < i :: longRangeWeights[k] == 0.0
      {
        longRangeWeights[i] := 0.0;
      }
      ghost var z := Zeros(n);
      assert |longRangeWeights[..]| == |z| && forall k | 0 <= k < n :: longRangeWeights[..][k] == z[k];
      assert longRangeWeights[..] == z;
      for i := 0 to n
        invariant longRangeWeights[..] == LongRange(z, probes, dist, i)
      {
        Accumulate(i, probes[i], dist);
      }
      var l, sec := TopTwoScan(longRangeWeights);
      dir := l;
      if Abs(longRangeWeights[l] - longRangeWeights[sec]) < cfg.biasThreshold {
        dir := sec;
      }
    }

    /** One iteration of the accumulation loop of IndirectMoveTowardsTarget. */
    method Accumulate(i: nat, p: Probe, dist: real)
      requires Valid() && i < n
      modifies longRangeWeights
      ensures longRangeWeights[..] == LongRangeStep(old(longRangeWeights[..]), i, p, dist)
    {
      FirstOrderTerm(i, p, dist);
      SecondOrderTerm(i, p, dist);
    }

    /** The wall estimate: spread a penalty when a wall is no farther than the target, else reward. */
    method FirstOrderTerm(i: nat, p: Probe, dist: real)
      requires Valid() && i < n
      modifies longRangeWeights
      ensures longRangeWeights[..] == FirstOrderStep(old(longRangeWeights[..]), i, p, dist)
    {
      if Blocked(p, dist) {
        var negativeWeight := WallPenalty(p, dist);
        Propagate(longRangeWeights, i, negativeWeight);
      } else {
        OpenReward(i, OpenGain(p, dist));
      }
    }

    /** longRange_Weights[i].weight += gain, nothing else. */
    method OpenReward(i: nat, gain: real)
      requires Valid() && i < n
      modifies longRangeWeights
      ensures longRangeWeights[..] == old(longRangeWeights[..])[i := old(longRangeWeights[..])[i] + gain]
    {
      ghost var w := longRangeWeights[..];
      longRangeWeights[i] := longRangeWeights[i] + gain;
      ghost var f := w[i := w[i] + gain];
      assert |longRangeWeights[..]| == |f| && forall k | 0 <= k < n :: longRangeWeights[..][k] == f[k];
    }

    /** The second-order bonus for tangential or backward directions with a clear path past the wall. */
    method SecondOrderTerm(i: nat, p: Probe, dist: real)
      requires Valid() && i < n
      modifies longRangeWeights
      ensures longRangeWeights[..] == SecondOrderStep(old(longRangeWeights[..]), i, p, dist)
    {
      if SecondOrder(p) {
        if p.clearPast {
          OpenReward(i, dist * 2.0 - p.newDistToTarget);
        }
      }
    }
  }
}
