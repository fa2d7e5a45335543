/** Integration of one planet and the bounce response at the viewport edge. */
module Motion {
  import opened Bodies

  /** Metres per pixel (`scale`) and simulated seconds per real second (`tf`). */
  const Scale: real := 480000000.0
  const TimeFactor: real := 100000.0

  /** One semi-implicit Euler step with an already scaled `dt`: the velocity
      takes the resultant acceleration, then the position moves with the
      NEW velocity, converted to pixels. */
  function Integrate(b: Body, res: Vec, dt: real): (r: Body)
    ensures r.id == b.id && r.mass == b.mass
    ensures r.vx - b.vx == res.x * dt && r.vy - b.vy == res.y * dt
    ensures (r.x - b.x) * Scale == r.vx * dt && (r.y - b.y) * Scale == r.vy * dt
  {
    var vx := b.vx + res.x * dt;
    var vy := b.vy + res.y * dt;
    b.(vx := vx, vy := vy, x := b.x + vx * dt / Scale, y := b.y + vy * dt / Scale)
  }

  /** The step run backwards, the inverse of `Integrate`. */
  function Rewind(b: Body, res: Vec, dt: real): Body
  {
    var x := b.x - b.vx * dt / Scale;
    var y := b.y - b.vy * dt / Scale;
    b.(x := x, y := y, vx := b.vx - res.x * dt, vy := b.vy - res.y * dt)
  }

  lemma RewindIntegrate(b: Body, res: Vec, dt: real)
    ensures Rewind(Integrate(b, res, dt), res, dt) == b
  {
  }

  lemma IntegrateRewind(b: Body, res: Vec, dt: real)
    ensures Integrate(Rewind(b, res, dt), res, dt) == b
  {
  }

  /** Bounce mode: on each axis where the planet is outside the viewport the
      velocity component is negated and one extra position step is taken on
      that axis only; the x axis is handled before the y axis. */
  function Reflect(b: Body, dt: real): (r: Body)
    ensures r.id == b.id && r.mass == b.mass
    ensures OutX(b) ==> r.vx == -b.vx && (r.x - b.x) * Scale == -b.vx * dt
    ensures !OutX(b) ==> r.vx == b.vx && r.x == b.x
    ensures OutY(b) ==> r.vy == -b.vy && (r.y - b.y) * Scale == -b.vy * dt
    ensures !OutY(b) ==> r.vy == b.vy && r.y == b.y
    ensures r.vx * r.vx + r.vy * r.vy == b.vx * b.vx + b.vy * b.vy
  {
    var bx := if OutX(b) then b.(vx := -b.vx, x := b.x + -b.vx * dt / Scale) else b;
    if OutY(bx) then bx.(vy := -bx.vy, y := bx.y + -bx.vy * dt / Scale) else bx
  }

  /** The reflected micro-step exactly undoes the integration step on that
      axis, so a planet that was inside the viewport before its step is
      inside it after the bounce. */
  lemma BounceReturns(b: Body, res: Vec, dt: real)
    ensures var s := Integrate(b, res, dt);
      var r := Reflect(s, dt);
      (OutX(s) ==> r.x == b.x) && (OutY(s) ==> r.y == b.y) &&
      (Inside(b) ==> Inside(r))
  {
  }
}
