# Gravity playground physics core, in Dafny

This project models the physics bookkeeping of `PlanetControl` in the
gravity-simulation program (`Gravity.py`): the planet list and its
identities, `create`, `reset`, the `update` pass (merge trigger, merge,
integration and the bounce/cull boundary policy) and `combine_planets`.
Arithmetic is over Dafny `real`, so every conservation law below holds
exactly in the model.

Layout, one module per concern:

- `wrappers.dfy` (`Wrappers`): `Option` and `Result`.
- `bodies.dfy` (`Bodies`): the planet record `Body` with an `id` that stands
  for Python object identity, the viewport bounds, the list operations
  (`list.remove` as `RemoveId`, in-place mutation of one object as
  `ReplaceId`) and store totals of mass and momentum.
- `merge.dfy` (`Merge`): the merge trigger of lines 78-80 as `Close`, the
  merged body and `combine_planets` as `Combine`, with its three ways of
  raising.
- `motion.dfy` (`Motion`): the integration step, the bounce, and an inverse
  of the step (`Rewind`) that exists only in the model, as a partner for
  stating that the step loses no information.
- `step.dfy` (`Step`): one iteration of the outer loop of `update`
  (lines 67-115) as `Visit`: the inner scan `Scan` (lines 71-93) followed by
  the integrate-then-boundary step (lines 95-115).
- `simulation.dfy` (`Simulation`): the controller record, `Init`,
  `Create`, `Reset`, the whole outer loop as the function `Pass`, and the
  `Update` method, which scales `dt` by the time factor (line 66) and walks
  the live list by index exactly as `for p1 in self.planets` does while
  planets are removed; its result is proved equal to `Pass`.

The force law of lines 85-93 is a parameter `accel` of the update pass. It
is a partial function that has to be defined on every pair of planets the
merge trigger lets through. Two planets whose squared distance is below 5
are merged before any force would be computed. So the force formula never
sees a zero distance.

Two behaviours of `Gravity.py` that the model keeps as they are:
- `update` does not reject a non-positive `dt`.
- Planets are removed from the list while it is being iterated. In the
  inner loop a merge removes the planet at the current index, so the planet
  after it is skipped. In the outer loop every removal at or before the
  current index moves the later planets one slot left, so the loop skips one
  planet after the current one per removal.

## Model

| member | source | states |
|---|---|---|
| Bodies.RemoveId | Gravity.py:133 | removing by identity shrinks the list by one when the object is present, leaves it unchanged otherwise, and introduces no record |
| Bodies.ReplaceId | Gravity.py:135-137 | mutating an object changes only the slot holding that identity; all other slots keep their records |
| Bodies.TotalRemove | Gravity.py:115 | removing a planet lowers a store total (mass, momentum) by exactly that planet's share |
| Merge.CloseSymmetric | Gravity.py:74-80 | the merge trigger `Close` (squared distance below 5; the source's square root and square cancel over the reals) holds for a pair whichever of the two is scanning |
| Merge.Merged | Gravity.py:120-137 | the survivor keeps p1's identity and position, its mass is the sum, and its momentum on each axis is the sum of the two momenta |
| Merge.Combine | Gravity.py:117-142 | p1 is p2 raises (SelfMerge); a zero mass sum raises before anything changes; a missing p2 raises; otherwise succeeds and the list shrinks by one |
| Merge.CombineKeepsOrder | Gravity.py:133-137 | exactly p2 is removed; every other planet keeps its record and relative order, except p1, which becomes the merged body |
| Merge.CombineStore | Gravity.py:133-137 | after a merge identities stay distinct, p2's identity is gone, the merged p1 is present and no other record is new |
| Merge.CombineConserves | Gravity.py:121-136 | a merge conserves the store's total mass and total momentum on both axes |
| Motion.Integrate | Gravity.py:98-102 | velocity changes by resultant times dt, then position changes by the new velocity times dt over the scale; identity and mass unchanged |
| Motion.RewindIntegrate | Gravity.py:98-102 | a property of the model only (the source has no inverse): the integration step of these lines is undone exactly by `Rewind`, so it loses no information |
| Motion.IntegrateRewind | Gravity.py:98-102 | a property of the model only: every body is the integration of exactly one earlier body |
| Motion.Reflect | Gravity.py:105-112 | on each axis independently: outside the viewport the velocity component is negated and one reflected position step is taken; inside nothing changes; speed is preserved |
| Motion.BounceReturns | Gravity.py:101-112 | the reflected step puts the planet back at its pre-step coordinate on that axis, so a planet inside the viewport stays inside in bounce mode |
| Step.Scan | Gravity.py:71-93 | the inner loop never grows the list, keeps p1's identity and position, and once p1 is altered it stays altered |
| Step.ScanAltered | Gravity.py:70-82 | a p1 not yet altered ends the scan altered exactly when some other scanned planet lies within the merge threshold |
| Step.ScanFree | Gravity.py:68-93 | with no planet close to p1 the scan leaves the list unchanged and its resultant equals the sum of the pulls of all other planets |
| Step.ScanPreserves | Gravity.py:71-82 | the scan keeps identities distinct, conserves total mass and momentum, leaves every other record untouched and p1's position fixed, and cannot fail with positive masses |
| Step.Visit | Gravity.py:67-115 | one outer iteration (`Visit`) never makes the list longer |
| Step.VisitMerging | Gravity.py:80-99 | a planet with another planet within the merge threshold is not integrated and not boundary-checked: the pass result is exactly the list its scan's merges left, the planet's record is the merged one, and it remains at its position |
| Step.VisitFree | Gravity.py:95-115 | a planet with nobody close is integrated with the full resultant (the sum of the pulls of all other planets), then reflected and kept (bounce), or removed exactly when outside the viewport and otherwise kept (cull) |
| Step.VisitFreeOthers | Gravity.py:95-115 | in that pass every other planet keeps its record and relative order |
| Step.VisitPreserves | Gravity.py:67-115 | one outer iteration keeps identities distinct, adds none, never grows the list, conserves total mass in bounce mode, only lowers it in cull mode, and keeps planets inside the viewport |
| Simulation.Init | Gravity.py:46-50 | a new controller has no planets and bounce switched off |
| Simulation.Create | Gravity.py:59-63 | appends one planet with the given fields, keeps the earlier planets, and gives it an identity no live planet has |
| Simulation.Reset | Gravity.py:144-147 | exactly two planets: mass 1990000 at rest at (640, 360) and mass 5.98 at (640, 660) with velocity (3000000, 0) |
| Simulation.ResetApart | Gravity.py:144-147 | the two reset planets are outside each other's merge threshold |
| Simulation.Update | Gravity.py:65-115 | the result is the outer loop `Pass` run over the whole list with `dt` multiplied by the time factor; it never increases the number of planets, introduces no identity, keeps masses positive (then it cannot fail), conserves total mass in bounce mode, never raises it in cull mode, and keeps every planet inside the viewport |
| Simulation.TwoCloseMerge | Gravity.py:66-82 | two planets within the merge threshold become, after one update, a single planet with summed mass and momentum-weighted velocity, not integrated |
| Simulation.LonePlanet | Gravity.py:66-115 | a lone planet is integrated with a zero resultant over `dt` times the time factor, then reflected (bounce), or dropped exactly when outside the viewport (cull) |

## Left out

- Window, sprites, batch drawing, mouse and keyboard handlers, the paused/game state stack and clock scheduling (Gravity.py:11-36, 149-265): rendering and event plumbing.
- The force formula (Gravity.py:85-93: `sqrt`, `atan2`, `cos`, `sin`, `G`): transcendental floating-point numerics. It is the parameter `accel`; the constants `G`, `AU` and `mf` are used nowhere else and are not modelled.
- Floating-point rounding: all arithmetic is exact `real`. In particular `sqrt(d)**2 < 5` is modelled as `d < 5`.
- Total momentum across a whole `update` is not stated; only merges are proved to conserve it. The planets are updated in place one after another, so a later planet's scan sees the already moved position of an earlier one; bounces flip velocity signs (lines 107, 111) and culls remove momentum (line 115); and the force law is a parameter here, so no equal-and-opposite law about it is available.
- The `print` calls at lines 118 and 221.
- Keyword defaults of `create` (`mass=5.98`, `vx=0`, `vy=0`): `Create` takes every field; `Reset` passes the defaults explicitly.
- Simulation.Update: requires distinct identities in the list, because a Python list of planet objects built by `create` never holds one object twice.
- Simulation.Update: beyond its equality with `Pass`, states no property of which planets the index-based loop skips after a removal; the skipping itself is modelled, not characterised.
- Merge.Combine: when p1 is not in the list, the source still mutates the detached p1 object; the model has no detached objects and only drops p2.
