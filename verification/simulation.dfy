/** `PlanetControl`: the planet list, the bounce flag, and the operations
    create, reset and update. */
module Simulation {
  import opened Wrappers
  import opened Bodies
  import opened Merge
  import opened Motion
  import opened Step

  /** The controller's state. `nextId` mints identities for new planet objects. */
  datatype PlanetControl = PlanetControl(planets: seq<Body>, bounce: bool, nextId: Id)

  /** Distinct live objects, and every identity already minted. */
  predicate WellFormed(c: PlanetControl)
  {
    UniqueIds(c.planets) && forall b :: b in c.planets ==> b.id < c.nextId
  }

  /** Default mass of `create` (the Earth, in scaled units). */
  const DefaultMass: real := 5.98

  /** A fresh controller: no planets, objects leave the screen (no bounce). */
  function Init(): (c: PlanetControl)
    ensures WellFormed(c) && |c.planets| == 0 && !c.bounce
  {
    PlanetControl([], false, 0)
  }

  /** `create(x, y, mass, vx, vy)`: appends a new planet object. */
  function Create(c: PlanetControl, x: real, y: real, mass: real, vx: real, vy: real): (r: PlanetControl)
    ensures |r.planets| == |c.planets| + 1 && r.planets[..|c.planets|] == c.planets
    ensures var b := r.planets[|c.planets|];
      b.x == x && b.y == y && b.mass == mass && b.vx == vx && b.vy == vy
    ensures WellFormed(c) ==> WellFormed(r) && !HasId(c.planets, r.planets[|c.planets|].id)
    ensures r.bounce == c.bounce
  {
    var b := Body(c.nextId, x, y, mass, vx, vy);
    PlanetControl(c.planets + [b], c.bounce, c.nextId + 1)
  }

  /** `reset`: empties the list and creates the sun at the window centre and
      an Earth 300 pixels above it moving sideways. */
  function Reset(c: PlanetControl): (r: PlanetControl)
    ensures |r.planets| == 2
    ensures var sun := r.planets[0];
      sun.x == 640.0 && sun.y == 360.0 && sun.mass == 1990000.0 && sun.vx == 0.0 && sun.vy == 0.0
    ensures var earth := r.planets[1];
      earth.x == 640.0 && earth.y == 660.0 && earth.mass == DefaultMass && earth.vx == 3000000.0 && earth.vy == 0.0
    ensures WellFormed(r) && PositiveMasses(r.planets) && AllInside(r.planets)
    ensures r.bounce == c.bounce
  {
    var empty := c.(planets := []);
    var withSun := Create(empty, WindowX / 2.0, WindowY / 2.0, 1990000.0, 0.0, 0.0);
    Create(withSun, WindowX / 2.0, WindowY / 2.0 + 300.0, DefaultMass, 3000000.0, 0.0)
  }

  /** The two bodies `reset` creates are far apart: the first update does
      not merge them. */
  lemma ResetApart(c: PlanetControl)
    ensures var r := Reset(c);
      !CloseAhead(r.planets, r.planets[0], 0) && !CloseAhead(r.planets, r.planets[1], 0)
  {
  }

  /** The outer loop `for p1 in self.planets` from index k on, with the
      already scaled time step: visit the planet now at index k, then go on
      at k + 1 in the list that visit left. */
  function Pass(ps: seq<Body>, k: nat, step: real, bounce: bool, accel: Accel): Result<seq<Body>, MergeError>
    requires AccelOk(accel)
    decreases |ps| - k
  {
    if k >= |ps| then Success(ps)
    else
      match Visit(ps, k, step, bounce, accel)
      case Failure(e) => Failure(e)
      case Success(next) => Pass(next, k + 1, step, bounce, accel)
  }

  /** `update(dt)`: scales dt by the time factor, then visits the live list
      by index the way `for p1 in self.planets` does, so a removal before the
      current index makes the loop skip a planet. A zero mass sum in a merge
      aborts the pass, as the source's division raises. */
  method Update(c: PlanetControl, dt: real, accel: Accel) returns (r: Result<PlanetControl, MergeError>)
    requires AccelOk(accel)
    requires UniqueIds(c.planets)
    ensures r.Success? <==> Pass(c.planets, 0, dt * TimeFactor, c.bounce, accel).Success?
    ensures r.Success? ==> r.value.planets == Pass(c.planets, 0, dt * TimeFactor, c.bounce, accel).value
    ensures PositiveMasses(c.planets) ==> r.Success?
    ensures r.Success? ==> r.value.bounce == c.bounce && r.value.nextId == c.nextId
    ensures r.Success? ==> |r.value.planets| <= |c.planets|
    ensures r.Success? ==> UniqueIds(r.value.planets) && Ids(r.value.planets) <= Ids(c.planets)
    ensures r.Success? && WellFormed(c) ==> WellFormed(r.value)
    ensures r.Success? && PositiveMasses(c.planets) ==> PositiveMasses(r.value.planets)
    ensures r.Success? && c.bounce ==> Total(r.value.planets, Mass) == Total(c.planets, Mass)
    ensures r.Success? && PositiveMasses(c.planets) ==> Total(r.value.planets, Mass) <= Total(c.planets, Mass)
    ensures r.Success? && AllInside(c.planets) ==> AllInside(r.value.planets)
  {
    var step := dt * TimeFactor;
    var ps := c.planets;
    var k := 0;
    while k < |ps|
      invariant UniqueIds(ps)
      invariant |ps| <= |c.planets|
      invariant Ids(ps) <= Ids(c.planets)
      invariant PositiveMasses(c.planets) ==> PositiveMasses(ps)
      invariant c.bounce ==> Total(ps, Mass) == Total(c.planets, Mass)
      invariant PositiveMasses(c.planets) ==> Total(ps, Mass) <= Total(c.planets, Mass)
      invariant AllInside(c.planets) ==> AllInside(ps)
      invariant Pass(ps, k, step, c.bounce, accel) == Pass(c.planets, 0, step, c.bounce, accel)
      decreases |c.planets| - k
    {
      VisitPreserves(ps, k, step, c.bounce, accel);
      var v := Visit(ps, k, step, c.bounce, accel);
      if v.Failure? {
        return Failure(v.error);
      }
      ps := v.value;
      k := k + 1;
    }
    r := Success(c.(planets := ps));
    if WellFormed(c) {
      forall b | b in ps
        ensures b.id < c.nextId
      {
        assert b.id in Ids(ps);
      }
    }
  }

  /** Two planets placed within the merge threshold become one planet in the
      first update, with the summed mass and the momentum-weighted velocity,
      at the first planet's position; the survivor is not integrated. */
  lemma {:induction false} TwoCloseMerge(a: Body, b: Body, dt: real, bounce: bool, accel: Accel)
    requires AccelOk(accel)
    requires a.id != b.id && Close(a, b) && a.mass > 0.0 && b.mass > 0.0
    ensures Pass([a, b], 0, dt * TimeFactor, bounce, accel) == Success([Merged(a, b)])
  {
    var ps := [a, b];
    var step := dt * TimeFactor;
    var m := Merged(a, b);
    assert RemoveId(ps, b.id) == [a] by {
      RemoveIdAt(ps, 1);
    }
    assert ReplaceId([a], m) == [m] by {
      ReplaceIdAt([a], 0, m);
    }
    assert Combine(ps, a, b) == Success([m]);
    assert Scan([m], m, 2, Zero, true, accel) == Success(Scanned([m], m, Zero, true));
    assert Scan(ps, a, 1, Zero, false, accel) == Success(Scanned([m], m, Zero, true));
    assert Scan(ps, a, 0, Zero, false, accel) == Scan(ps, a, 1, Zero, false, accel);
    assert Visit(ps, 0, step, bounce, accel) == Success([m]);
    assert Pass([m], 1, step, bounce, accel) == Success([m]);
  }

  /** A lone planet feels no pull: one update integrates it with a zero
      resultant over `dt` scaled by the time factor, then reflects it in
      bounce mode, or in cull mode drops it exactly when it left the
      viewport. */
  lemma {:induction false} LonePlanet(p: Body, dt: real, bounce: bool, accel: Accel)
    requires AccelOk(accel)
    ensures var b := Integrate(p, Zero, dt * TimeFactor);
      Pass([p], 0, dt * TimeFactor, bounce, accel) ==
        if bounce then Success([Reflect(b, dt * TimeFactor)])
        else if OutOfBounds(b) then Success([])
        else Success([b])
  {
    var step := dt * TimeFactor;
    var b := Integrate(p, Zero, step);
    assert Scan([p], p, 1, Zero, false, accel) == Success(Scanned([p], p, Zero, false));
    assert Scan([p], p, 0, Zero, false, accel) == Success(Scanned([p], p, Zero, false));
    var c := if bounce then Reflect(b, step) else b;
    assert ReplaceId([p], c) == [c] by {
      ReplaceIdAt([p], 0, c);
    }
    assert RemoveId([p], p.id) == [] by {
      RemoveIdAt([p], 0);
    }
  }
}
