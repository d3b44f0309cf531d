# Context steering and player inventory, modelled in Dafny

This project models two parts of a Unity 2D game.

**The context-steering agent of `AI.cs`.** The agent keeps one weight per
direction, in a ring of 4 to 24 evenly spaced directions. Each call to a movement
operation works on that ring:

- It scores every direction against the target and against the current heading.
  In orbit mode it reshapes the target score to `1 - |dot|`, so directions that
  circle the target score highest.
- It lowers the weights of directions that short rays find blocked. The penalty
  spreads to the two neighbours on each side at one half and one third.
- For each direction it chooses one hit: the last hit the ray reports, unless
  a hit on an object without the agent's name is strictly closer. In that case
  it takes the first such hit of least distance. If the chosen hit has the
  agent's own name, the weight is rewarded. Otherwise it is penalised. Then the
  direction's weight is clamped to [-1, 1].
- It heads for the first direction of maximal weight.

The operations that keep state between calls also live here:

- the orbit hysteresis flag;
- an obstruction lock that holds an escape heading until that heading scores
  well again;
- a long-range estimator that scores directions against walls and chooses
  between the two best directions.

**The player inventory of `PlayerInventory.cs`.** It has two fixed-size slot
arrays (items and weapons), two duplicate-free lists (mementos and abilities),
one equipped index per kind and an emotional-energy counter.

Modules:

- `Options` (`options.dfy`): the `Option` datatype.
- `ContextField` (`context_field.dfy`): the steering rules as functions on
  sequences of weights. Each loop of the source is written as a fold. The file
  also holds the lemmas about them: the propagation profile, the hit choice,
  the penalty bounds, the detection pass, the orbit hysteresis, the first
  arg-max, the lock transitions, the long-range score and the top-two choice.
- `SteeringAgent` (`steering_agent.dfy`): the agent as a class. The two weight
  arrays are `array<real>` fields updated in place, with the source's loops and
  index expressions. Each method is proved equal to the `ContextField` function
  of the old state.
- `InventoryItems` (`inventory_items.dfy`): the values the inventory stores, the
  first-empty-slot search and the stacking fold of `AddItem`, with its
  conservation and frame lemmas.
- `Inventory` (`inventory.dfy`): the inventory as a class. The slot stores are
  arrays of `Option` values. It has an invariant, `Valid`, that every modelled
  operation keeps, from the constructor on:
  - an equipped index that is not negative names an occupied slot or an
    existing list entry;
  - an item and an ability are never equipped at the same time;
  - the lists hold no duplicates.

The world is given to the model as inputs:

- Each direction's short-ray hits are a sequence of `Hit` values: distance,
  "the collider's object has the agent's own name" (the code compares names,
  so any object with that name counts as the agent), "carries the comrade tag".
- Each long-range ray is a `Probe`: the dot product with the target direction,
  whether a wall was hit and at what distance, and whether the second ray
  towards the target was clear and how long it was.
- A direction's dot products with the target direction and with the current
  heading are sequences indexed by direction.
- `dirDot[i][j]` is the dot product between the unit directions i and j.
- Headings are direction indices. `Still` is the zero vector the agent starts
  with.

Two behaviours of the code that a reader might not expect:

- **Weights can end a detection pass below -1.** One might expect every weight
  to lie in [-1, 1] after a pass, since each direction is clamped at AI.cs:384.
  But direction i is clamped right after it is processed, and directions
  processed later still subtract their spread penalty from it at
  AI.cs:372-375. For example, the last direction's penalty reaches direction 0
  after direction 0 was clamped. `DetectBelowMinusOne` shows a pass that ends
  at -1.5. The upper bound 1 does hold, and `DetectUpperBound` proves it.
- **The clear-path reward also changes negative weights.** One might expect the
  reward to favour only positive weights. The code at AI.cs:380 adds
  `weight * noObstacleDesire`, so a negative weight becomes more negative.
  `StepReward` states the code's rule. It also shows that a zero weight is left
  unchanged.
- **The escape index and the escape heading can disagree.** One might expect
  the escape heading to always point at the escape index. When the lock
  switches but no biased weight exceeds -1, the scan at AI.cs:305-318 keeps its
  start index 0 and never updates `newDir`. So AI.cs:320-324 set the escape
  index to 0 and the escape heading to the previous `newDir`.
  `EscapeMovesOnlyOnSwitch` states both.

## Model

| member | source | states |
|---|---|---|
| ContextField.Clamp | AI.cs:384 | Mathf.Clamp: the result lies in [lo, hi]; it equals x inside the range and the nearer bound outside it |
| ContextField.Zeros | AI.cs:395-398 | the long-range reset: n weights, every one 0 |
| ContextField.Spread | AI.cs:369-375 | the five in-place updates of a propagation, in the source's order; it keeps the ring's length, and SpreadAt gives its effect on each direction |
| ContextField.Share | AI.cs:369-375 | the fraction of a propagated amount that lands on a direction; it is never negative, so a penalty never raises a direction (profile in ShareProfile and ShareFour) |
| ContextField.SpreadAt | AI.cs:369-375 | after propagating an amount from direction i, direction k has changed by the amount times its share |
| ContextField.SpreadAll | AI.cs:369-375 | the same change holds at every direction at once |
| ContextField.ShareProfile | AI.cs:369-375 | for five or more directions, the shares are 1 at i, 1/2 at i±1 and 1/3 at i±2 (indices wrap around the ring), and 0 everywhere else |
| ContextField.ShareFour | AI.cs:372-375 | with four directions, i+2 and i-2 are the same direction; it receives both thirds, 2/3, while i±1 get 1/2 and i itself gets 1 |
| ContextField.ScanHits | AI.cs:353-360 | the hit-choosing loop from position j with the current choice; the choice stays a valid position, and ScanHitsChosen says which hit it ends on |
| ContextField.SelectedHit | AI.cs:353-360 | the loop started from the last hit; a valid position, characterised by SelectedHitChosen |
| ContextField.SelectedHitChosen | AI.cs:353-360 | the chosen hit is the last hit, unless some non-self hit is strictly closer than it; then it is the first non-self hit of least distance |
| ContextField.Penalty | AI.cs:364-367 | the obstacle penalty lies in [0, 1]; a comrade hit while orbiting costs at least 0.35 |
| ContextField.PenaltyShape | AI.cs:364 | without the comrade rule, a closer hit never costs less; a touching hit costs 1, and a hit at or beyond the sensor range costs 0 |
| ContextField.Respond | AI.cs:351-381 | one direction's response before the clamp: no change without hits, the reward for a hit with the agent's name, the spread penalty otherwise; its cases are stated by StepNoHits, StepReward, StepPenaltyOwn and StepPenaltyOther |
| ContextField.DetectStep | AI.cs:350-384 | one iteration of the sensor loop: the response, then the clamp of the direction itself; bounds in StepLowersOthers |
| ContextField.Detect | AI.cs:348-385 | the sensor loop after its first k iterations; bounds in DetectUpperBound, the lower-bound counterexample in DetectBelowMinusOne, and the clear field in DetectClearField |
| ContextField.StepNoHits | AI.cs:351-384 | a direction with no hits is only clamped |
| ContextField.StepReward | AI.cs:377-384 | when the chosen hit has the agent's own name, the weight is multiplied by 1 + noObstacleDesire and clamped, and nothing else changes; a zero weight stays 0 |
| ContextField.StepPenaltyOwn | AI.cs:362-384 | when the chosen hit is another object, the direction's weight drops by the penalty and is clamped |
| ContextField.StepPenaltyOther | AI.cs:362-375 | every other direction receives the spread of the negated penalty |
| ContextField.StepLowersOthers | AI.cs:362-384 | one direction's step never raises another direction, and it leaves its own weight in [-1, 1] |
| ContextField.DetectUpperBound | AI.cs:348-385 | after the whole pass every weight is at most 1 |
| ContextField.DetectBelowMinusOne | AI.cs:348-385 | a concrete pass on four directions that ends with direction 0 at -1.5, so the lower bound -1 does not hold |
| ContextField.DetectClearField | AI.cs:348-385 | with no hits anywhere, a field already within [-1, 1] is left unchanged |
| ContextField.SeekBaseline | AI.cs:124-131 | the seek score of each direction, one per direction; it is what ScoreSeek writes and what OrbitBaselineWhenNotOrbiting compares against |
| ContextField.OrbitShape | AI.cs:220-223 | the orbit reshaping 1-\|d\| is at most 1, equals 1 exactly for a tangential direction, is 0 for a direction pointing straight at or away from the target, and is not negative on [-1, 1] |
| ContextField.OrbitShapePrefersTangent | AI.cs:220-223 | a direction closer to tangential scores strictly higher |
| ContextField.OrbitBaseline | AI.cs:216-229 | the orbit score of each direction, one per direction, reshaped only while orbiting (OrbitBaselineWhenNotOrbiting) |
| ContextField.OrbitBaselineWhenNotOrbiting | AI.cs:216-229 | outside the orbit, the orbit scoring is the seek scoring |
| ContextField.NextOrbiting | AI.cs:209-212 | the flag after one tick: false beyond R+O+T, true within R+O (when that is not beyond R+O+T), and unchanged inside the band |
| ContextField.OrbitingAfter | AI.cs:209-212 | the flag after a run of ticks; it differs from the starting flag only if some distance left the band |
| ContextField.BandHolds | AI.cs:209-212 | a run of distances inside the hysteresis band never changes the orbit flag |
| ContextField.LastExitDecides | AI.cs:209-212 | for a non-negative orbit thickness, after a run of distances, the flag is decided by the last distance outside the band: inside the inner radius means orbiting, beyond the outer radius means not orbiting |
| ContextField.FirstMax | AI.cs:137-147 | the arg-max loop's result is a first maximal index: nothing is larger, and everything before it is strictly smaller |
| ContextField.FirstMaxUnique | AI.cs:137-147 | there is only one first maximal index |
| ContextField.FloorScan | AI.cs:305-318 | the escape scan, which starts from -1, finds an index exactly when some biased weight exceeds -1; the index then is the first maximum |
| ContextField.FloorMax | AI.cs:305-318 | the scan's value is max(-1, largest biased weight): at least -1, every biased weight is at most it or at most -1, and it is -1 or one of the weights |
| ContextField.EscapeBias | AI.cs:307-310 | the locked re-scoring: every direction gains 0.4 times its dot with the escape heading; one weight per direction |
| ContextField.LockedStep | AI.cs:303-333 | the locked branch on the biased weights; the escape heading moves only under EscapeSwitch (AI.cs:320); the escape index stays a valid direction, and its behaviour is stated by EscapeMovesOnlyOnSwitch, ReleaseExactlyWhenClear and LockHoldsCourse |
| ContextField.ClearStaysClear | AI.cs:335-340 | clear, with a best weight at or above the threshold: the lock state does not change |
| ContextField.ClearLocks | AI.cs:335-340 | clear, with a best weight below the threshold: the lock engages, and the current heading and the best index become the escape heading and index |
| ContextField.EscapeMovesOnlyOnSwitch | AI.cs:320-324 | the escape heading and index move only when max(-1, largest biased weight) exceeds maxObstructionChangeDir, or the escape weight falls below minObstructionChangeDir; then the index is the scan's first maximum and the heading points at it, or, when nothing exceeds -1, the index is 0 while the heading is the previous newDir |
| ContextField.ReleaseExactlyWhenClear | AI.cs:326-333 | a locked step releases exactly when the escape direction scores at the threshold or above; a held lock heads along the escape heading, a release heads along the best index |
| ContextField.LockHoldsCourse | AI.cs:320-333 | locked, with no switch and the escape weight below the threshold: the agent keeps its escape heading and stays locked |
| ContextField.ReleaseThenRelock | AI.cs:326-340 | a release followed by a best weight below the threshold locks again in the same call, onto the best index |
| ContextField.LockStep | AI.cs:300-341 | the whole transition, the locked branch then the Clear-to-Locked test; the escape index stays valid, and from Clear it locks exactly when the best weight is below the threshold; also stated by ClearStaysClear, ClearLocks, LockHoldsCourse and ReleaseThenRelock |
| ContextField.WallPenalty | AI.cs:413-416 | the wall estimate -(dist - wallDistance·dot); it is never positive for a wall no farther than the target and a dot in [-1, 1] |
| ContextField.OpenGain | AI.cs:426-429 | the open-direction gain 2·dist - (dist - dist·dot) equals dist·(1 + dot), never negative for dist ≥ 0 and dot ≥ -1 |
| ContextField.FirstOrderStep | AI.cs:411-430 | one direction's wall term; stated by LongRangeBlocked for a blocked direction, by LongRangeStepAt for any direction, and by LongRangeOpenField for open fields |
| ContextField.SecondOrderStep | AI.cs:432-446 | the second-ray term; one weight per direction, and SecondOrderAt gives its effect on each direction |
| ContextField.FirstOrderAt | AI.cs:411-430 | the wall term's effect on any direction k: the wall penalty times Share when the direction is blocked, otherwise the open gain on the probed direction alone |
| ContextField.SecondOrderAt | AI.cs:432-446 | the second-ray term adds 2·dist - newDistToTarget to the probed direction only, and only when the direction is far enough from the target line (1 - abs(dot) > 0.2 or dot < -0.2) and the segment past it is clear; every other weight is unchanged |
| ContextField.LongRangeStepAt | AI.cs:411-446 | one estimator iteration's effect on any direction k: the wall penalty times Share when blocked, otherwise the open gain on the probed direction, plus the second-ray bonus on the probed direction |
| ContextField.LongRangeStep | AI.cs:402-447 | one iteration of the estimator: the wall term, then the second-ray term |
| ContextField.LongRange | AI.cs:402-448 | the estimator loop after its first k iterations; each iteration is stated by LongRangeStepAt, and the whole loop over an open field by LongRangeOpenField |
| ContextField.LongRangeBlocked | AI.cs:411-422 | a wall no farther than the target gives a penalty that is never positive; it lowers each direction k by the penalty times Share (1 at i, 1/2 at i±1, 1/3 at i±2), and no direction rises |
| ContextField.LongRangeOpenField | AI.cs:402-447 | with no blocking wall, each scanned direction k gains exactly dist·(1 + dot_k) plus its second-ray bonus 2·dist - newDistToTarget when that check runs and the path is clear; directions not yet scanned keep their weight |
| ContextField.TopTwoFrom | AI.cs:455-469 | the top-two loop from index i with the running pair; both results are valid directions, and TopTwoFromCorrect says they are the top two |
| ContextField.TopTwoIndices | AI.cs:450-469 | the loop started from the pair (0, 1); the pair is characterised by TopTwoCorrect |
| ContextField.TopTwoCorrect | AI.cs:450-469 | the top-two scan returns the first maximum and a different index that is at least every other weight |
| ContextField.AntiGreedy | AI.cs:470-475 | the returned direction is the best or the second best; which one is stated by AntiGreedyChoice |
| ContextField.AntiGreedyChoice | AI.cs:470-475 | the second best is chosen exactly when the gap to the best is below biasThreshold; otherwise the best is chosen |
| ContextField.CheckForDirectPath | AI.cs:388-391 | the path is clear exactly when every wall on the ray lies beyond dist |
| SteeringAgent.ChooseHit | AI.cs:353-360 | the hit-choosing loop returns the chosen hit as SelectedHitChosen characterises it |
| SteeringAgent.Propagate | AI.cs:369-375 | the in-place propagation with the source's wrapped indices leaves the array equal to Spread of its old contents |
| SteeringAgent.FirstMaxScan | AI.cs:137-147 | the running arg-max loop returns the first maximal index and its weight |
| SteeringAgent.TopTwoScan | AI.cs:450-469 | the running largest/second-largest loop returns the top-two pair |
| SteeringAgent.Agent.constructor | AI.cs:80-102 | Start: both weight arrays are 0, the agent is not orbiting and not locked, the heading is still, and the agent can move |
| SteeringAgent.Agent.SetCanMove | AI.cs:74-77 | sets the movement flag |
| SteeringAgent.Agent.ScoreSeek | AI.cs:124-131 | the weights become the seek baseline: dot with the target plus desireKeepSameDir times dot with the current heading |
| SteeringAgent.Agent.ScoreOrbit | AI.cs:216-229 | the weights become the orbit baseline for the current orbit flag |
| SteeringAgent.Agent.UpdateOrbiting | AI.cs:209-212 | beyond R+O+T the flag is false; otherwise, within R+O it is true; inside the band it is unchanged |
| SteeringAgent.Agent.ObstacleDetection | AI.cs:345-386 | the weights become the detection pass applied to the old weights; every weight ends at most 1 |
| SteeringAgent.Agent.SenseDirection | AI.cs:350-384 | one direction's penalty-or-reward and clamp, as DetectStep of the old weights |
| SteeringAgent.Agent.ChooseHeading | AI.cs:136-147 | the heading becomes the first maximal direction, whose index and weight are returned |
| SteeringAgent.Agent.MoveTowardsTarget | AI.cs:116-150 | without movement or target nothing changes; otherwise the weights are the detection pass over the seek baseline, and the heading is their first maximum |
| SteeringAgent.Agent.MoveTowardsPosition | AI.cs:152-196 | returns true exactly when the agent can move and is at least minDistanceThreshold away; it stops exactly when it can move but is closer; when it moves, the weights and heading are as for MoveTowardsTarget |
| SteeringAgent.Agent.OrbitAroundTarget | AI.cs:200-298 | without movement or target nothing changes; otherwise the flag is updated by the hysteresis, the weights are the detection pass over the orbit baseline for the new flag, and the heading is their first maximum |
| SteeringAgent.Agent.PathObstruction | AI.cs:300-341 | when locked, the weights gain the escape bias; the lock state moves by LockStep, whose behaviour the lock lemmas above give |
| SteeringAgent.Agent.EscapeScan | AI.cs:303-333 | the locked branch: the escape-biased weights and the locked transition |
| SteeringAgent.Agent.IndirectMoveTowardsTarget | AI.cs:393-478 | the long-range weights become the long-range score of a reset field; the returned direction is the best or second best as AntiGreedy chooses |
| SteeringAgent.Agent.Accumulate | AI.cs:402-447 | one direction's wall term and second-ray term |
| SteeringAgent.Agent.FirstOrderTerm | AI.cs:411-430 | a wall before the target spreads the penalty -(dist - wallDistance·dot); otherwise the direction gains 2·dist - (dist - dist·dot) |
| SteeringAgent.Agent.OpenReward | AI.cs:429 | adds a gain to one long-range weight and changes nothing else |
| SteeringAgent.Agent.SecondOrderTerm | AI.cs:432-446 | when the direction is far enough from the target line and the second ray is clear, the direction gains 2·dist - newDist |
| InventoryItems.AddAmount | PlayerInventory.cs:219 | a stack takes what fits; the leftover is never negative; no units are created or lost; a positive leftover means a full stack |
| InventoryItems.RemoveAmount | PlayerInventory.cs:311 | the amount drops by k and nothing else changes |
| InventoryItems.FirstFree | PlayerInventory.cs:229-236 | the first empty slot: everything before it is occupied; with no result, every slot is occupied |
| InventoryItems.StackFrom | PlayerInventory.cs:215-227 | the stacking loop from slot i; it keeps the number of slots, and StackConserves and StackShape state what it moves and what it leaves alone |
| InventoryItems.Units | PlayerInventory.cs:215-227 | the units of one name held in the slots; none when no slot holds that name |
| InventoryItems.StackConserves | PlayerInventory.cs:215-227 | stacking moves units and never creates them; the incoming item keeps its name; it has nothing left when the loop stopped early |
| InventoryItems.StackShape | PlayerInventory.cs:215-227 | stacking fills and empties no slot and renames no stack; it changes only stacks of the item's name |
| InventoryItems.AddItemSlots | PlayerInventory.cs:212-238 | AddItem on the slot contents, stacking then the first empty slot; it keeps the number of slots, and AddItemOutcome and AddItemFrame state its result |
| InventoryItems.AddItemOutcome | PlayerInventory.cs:212-238 | AddItem succeeds exactly when a stack took the last of the amount or a slot was empty; on success every unit is held; on failure every slot is full, and the leftover is lost without rolling back the stacking |
| InventoryItems.AddItemFrame | PlayerInventory.cs:212-238 | slots of other names, other than the first empty one, are untouched |
| Inventory.AppendFresh | PlayerInventory.cs:253-255 | appending a value the list lacks keeps the list duplicate-free |
| Inventory.PlayerInventory.constructor | PlayerInventory.cs:83-95 | every slot empty, both lists empty, nothing equipped (all four indices -1) |
| Inventory.PlayerInventory.GetWeapon | PlayerInventory.cs:142-145 | a weapon exactly for an index inside the array whose slot is occupied, and then the slot's weapon |
| Inventory.PlayerInventory.GetItem | PlayerInventory.cs:146-149 | an item exactly for an index inside the array whose slot is occupied, and then the slot's item |
| Inventory.PlayerInventory.GetAbility | PlayerInventory.cs:150-153 | an ability exactly for a position inside the list, and then the entry at that position |
| Inventory.PlayerInventory.GetMemento | PlayerInventory.cs:154-157 | a memento exactly for a position inside the list, and then the entry at that position |
| Inventory.PlayerInventory.CurrentWeapon | PlayerInventory.cs:32 | with the invariant, there is an equipped weapon exactly when its index is non-negative |
| Inventory.PlayerInventory.CurrentItem | PlayerInventory.cs:33 | with the invariant, there is an equipped item exactly when its index is non-negative, and never together with an equipped ability |
| Inventory.PlayerInventory.CurrentAbility | PlayerInventory.cs:34 | with the invariant, there is an equipped ability exactly when its index is non-negative |
| Inventory.PlayerInventory.CurrentMemento | PlayerInventory.cs:35 | with the invariant, there is an equipped memento exactly when its index is non-negative |
| Inventory.PlayerInventory.HasAbility | PlayerInventory.cs:323-330 | the first position whose ability has the name, or -1 exactly when no ability has it |
| Inventory.PlayerInventory.EquipWeapon | PlayerInventory.cs:160-170 | the index is taken exactly when the slot is occupied or the index is negative; otherwise nothing changes |
| Inventory.PlayerInventory.EquipItem | PlayerInventory.cs:171-182 | on success (an occupied slot or a negative index) the item index is set and the ability index becomes -1; otherwise nothing changes |
| Inventory.PlayerInventory.EquipPlayerAbility | PlayerInventory.cs:183-197 | on success (a position inside the list or a negative index) the ability index is set and the item index becomes -1; otherwise nothing changes |
| Inventory.PlayerInventory.EquipMemento | PlayerInventory.cs:199-208 | an index past the list changes nothing; otherwise it is taken |
| Inventory.PlayerInventory.AddItem | PlayerInventory.cs:212-238 | the slots and the result are exactly those of AddItemSlots: stacking first, then the first empty slot |
| Inventory.PlayerInventory.AddWeapon | PlayerInventory.cs:239-250 | success exactly for a weapon with an empty slot available; the weapon goes into the first empty slot and no other slot changes; on failure nothing changes |
| Inventory.PlayerInventory.AddMemento | PlayerInventory.cs:251-262 | true exactly when the memento is present and not yet held; the list then grows by it, and otherwise is unchanged |
| Inventory.PlayerInventory.AddPlayerAbility | PlayerInventory.cs:263-274 | returns the new last position exactly when the ability is present and not yet held, and the list grows by it; otherwise returns -1 and changes nothing |
| Inventory.PlayerInventory.RemoveWeapon | PlayerInventory.cs:278-290 | only an occupied slot is emptied; removing the equipped weapon unequips it |
| Inventory.PlayerInventory.RemoveItem | PlayerInventory.cs:291-303 | only an occupied slot is emptied; removing the equipped item sets both the item and the ability index to -1 |
| Inventory.PlayerInventory.UseItem | PlayerInventory.cs:306-321 | one unit is used; a stack at or below 0 is removed and unequipped if it was equipped; an index outside the array or an empty slot changes nothing |
| Inventory.PlayerInventory.AddEmotionalEnergy | PlayerInventory.cs:354-360 | the counter grows by the amount with C#'s 32-bit wrap-around; without overflow it is plain addition |
| Inventory.PlayerInventory.SubtractEmotionialEnergy | PlayerInventory.cs:366-373 | fails, leaving the counter unchanged, exactly when the counter is below the amount; otherwise the counter drops by the amount with 32-bit wrap-around, and it stays non-negative exactly when the exact difference fits in an int (always for a non-negative amount) |
| Inventory.Wrap | PlayerInventory.cs:356 | C#'s unchecked int arithmetic: the result is in the 32-bit range, equals the exact value when that fits, and differs from it by a multiple of 2^32 |
| Inventory.SubtractMinValueWraps | PlayerInventory.cs:366-373 | with an empty counter and amount int.MinValue, the "enough energy" test passes and the counter ends at int.MinValue |

## Left out

- Inventory.PlayerInventory.Valid: holds from the constructor (Awake) through the modelled operations only. `LoadInventory` is not part of this model. It copies the four saved equipped indices unchecked at PlayerInventory.cs:396-399, after emptying every store and before refilling it. So the Add* calls inside the loader run on a state that breaks `Valid`. It also keeps any saved index whose Equip call fails at PlayerInventory.cs:421-428. A loaded state can therefore have a non-negative index that names an empty slot or a missing entry, and the invariant-based rows for CurrentWeapon, CurrentItem, CurrentAbility and CurrentMemento do not cover it.
- Ray casts, colliders, layers, names and tags are not modelled as such. Their results are the `Hit` and `Probe` inputs, and `CheckForDirectPath` gets the distances of the walls on its ray.
- Vector geometry is given as inputs:
  - the cosines and sines that place the directions in `Start`;
  - normalisation;
  - the dot products, as the `dirDot` table and per-call sequences;
  - the second ray's origin and length.
- Floating-point rounding: weights are exact reals.
- `Move` is not modelled: its heading blend (`Lerp`), the time step and the rigid-body velocity. Only the "stop" decision of `MoveTowardsTarget(Vector3)` is kept, as the `stopped` result.
- `PauseMovement` and its coroutine; the gizmo drawing; `Update`.
- The random orbit offset of `Start` is taken as the `orbitOffset` setting.
- `SetTarget` and `SetSpeed`: whether a target exists is the `hasTarget` parameter, and speed only matters to `Move`.
- The two `OrbitAroundTarget` overloads are one method. The version without a position has `hasTarget` false when the target is missing.
- `PathObstruction`, `IndirectMoveTowardsTarget` and `CheckForDirectPath` are modelled as standalone operations. Nothing in `AI.cs` calls them, so no tick combines them with scoring.
- SteeringAgent.Agent.IndirectMoveTowardsTarget: assumes a target is set. The code reads `target.position` at AI.cs:435, so with no target it throws at the first direction that meets the condition at AI.cs:432. The model has no exception path for this.
- Headings are direction indices, not vectors. `IndirectMoveTowardsTarget` returns the index of the chosen direction.
- SteeringAgent.Agent.ObstacleDetection: states only the upper bound 1, because the lower bound -1 does not hold for the code (see `DetectBelowMinusOne`).
- `SerializationManager.cs` is not part of this model. It is file, JSON and scene I/O.
- These parts of `PlayerInventory.cs` are not modelled:
  - `LoadInventory`, which builds objects whose classes are not part of this model;
  - `OnTriggerEnter2D` with its events and audio;
  - the static item database filled in `Awake`;
  - the calls into the action controller, the GUI and the floor;
  - the `print` calls.
- `GetWeapons`, `GetItems`, `GetMementos` and `GetAbilities` are not modelled. They hand out the collections themselves, and in this model those are the fields.
- InventoryItems.RemoveAmount: the `Item` class is not part of this model, so lowering the amount by exactly k and changing nothing else is a stand-in for `Item.RemoveAmount`.
- Inventory.PlayerInventory.AddItem: takes a present item, because the code dereferences it at PlayerInventory.cs:214 before any null check, so a null item throws. The model has no exception path.
- InventoryItems.AddAmount: the `Item` class is not part of this model, so stacking up to `maxAmount` is a stand-in. The proofs use only its contract: units are conserved, the leftover is never negative, and a positive leftover means a full stack.
- Objects are modelled as values. Weapons, abilities and mementos carry an `id` for object identity, which is what `List.Contains` compares. Aliasing is not modelled:
  - `AddItem` stores the caller's item after lowering its amount to the leftover, and the caller's object changes with it;
  - `UseItem` changes the stored object in place.
  Here the slot gets the new value and the caller's item is not visible.
- Inventory.PlayerInventory.EquipMemento: requires a non-negative index, because the code indexes the list without a lower-bound check and faults on a negative index.
- The inventory sizes (12 and 12 in the source) are constructor parameters.
- `emotionalEnergyGained` is not modelled; none of the modelled operations use it.
