/** One pass of `PlanetControl.update`: the inner scan of one planet p1
    over the live list, and the integration and boundary handling that
    follow it. */
module Step {
  import opened Wrappers
  import opened Bodies
  import opened Merge
  import opened Motion

  /** The pull of p2 on p1 (the force formula is not modelled). It must be
      defined at least for every pair the merge trigger lets through, which
      is what makes merging before dividing by the distance safe. */
  type Accel = (Body, Body) --> Vec

  ghost predicate AccelOk(accel: Accel)
  {
    forall a, b :: !Close(a, b) ==> accel.requires(a, b)
  }

  /** The state of the inner loop: the live list, the current record of
      p1, the resultant so far and whether p1 has merged. */
  datatype Scanned = Scanned(planets: seq<Body>, p1: Body, res: Vec, altered: bool)

  /** The inner loop `for p2 in self.planets` from index `j` on. A merge
      removes p2 at index j and the loop goes on at j + 1, so the planet
      that moved into slot j is skipped, as list iteration does. */
  function Scan(ps: seq<Body>, p1: Body, j: nat, res: Vec, altered: bool, accel: Accel): (r: Result<Scanned, MergeError>)
    requires AccelOk(accel)
    ensures r.Success? ==> |r.value.planets| <= |ps|
    ensures r.Success? ==> r.value.p1.id == p1.id && r.value.p1.x == p1.x && r.value.p1.y == p1.y
    ensures r.Success? && altered ==> r.value.altered
    decreases |ps| - j
  {
    if j >= |ps| then Success(Scanned(ps, p1, res, altered))
    else
      var p2 := ps[j];
      if p1.id == p2.id then Scan(ps, p1, j + 1, res, altered, accel)
      else if Close(p1, p2) then
        match Combine(ps, p1, p2)
        case Failure(e) => Failure(e)
        case Success(rest) => Scan(rest, Merged(p1, p2), j + 1, res, true, accel)
      else Scan(ps, p1, j + 1, Add(res, accel(p1, p2)), altered, accel)
  }

  /** Some other planet from index j on triggers a merge with p1. */
  predicate CloseAhead(ps: seq<Body>, p1: Body, j: nat)
  {
    exists i :: j <= i < |ps| && ps[i].id != p1.id && Close(p1, ps[i])
  }

  /** Reference definition of the resultant: the sum of the pulls on p1 of
      every other planet of the list that is not close enough to merge. */
  function Resultant(ps: seq<Body>, p1: Body, accel: Accel): Vec
    requires AccelOk(accel)
  {
    if ps == [] then Zero
    else
      var rest := Resultant(ps[1..], p1, accel);
      if ps[0].id == p1.id || Close(p1, ps[0]) then rest else Add(accel(p1, ps[0]), rest)
  }

  /** A p1 not yet altered ends the scan altered exactly when some other
      planet it scans lies within the merge threshold. */
  lemma {:induction false} ScanAltered(ps: seq<Body>, p1: Body, j: nat, res: Vec, altered: bool, accel: Accel)
    requires AccelOk(accel)
    requires !altered
    ensures var r := Scan(ps, p1, j, res, altered, accel);
      r.Success? ==> (r.value.altered <==> CloseAhead(ps, p1, j))
    decreases |ps| - j
  {
    if j < |ps| {
      var p2 := ps[j];
      if p1.id == p2.id {
        ScanAltered(ps, p1, j + 1, res, altered, accel);
      } else if Close(p1, p2) {
      } else {
        ScanAltered(ps, p1, j + 1, Add(res, accel(p1, p2)), altered, accel);
      }
    }
  }

  /** With no planet close to p1, the scan changes nothing in the store and
      computes the reference resultant. */
  lemma {:induction false} ScanFree(ps: seq<Body>, p1: Body, j: nat, res: Vec, accel: Accel)
    requires AccelOk(accel)
    requires j <= |ps| && !CloseAhead(ps, p1, j)
    ensures Scan(ps, p1, j, res, false, accel) == Success(Scanned(ps, p1, Add(res, Resultant(ps[j..], p1, accel)), false))
    decreases |ps| - j
  {
    if j < |ps| {
      var p2 := ps[j];
      assert ps[j..][1..] == ps[j + 1..];
      if p1.id == p2.id {
        ScanFree(ps, p1, j + 1, res, accel);
      } else {
        assert !Close(p1, p2);
        ScanFree(ps, p1, j + 1, Add(res, accel(p1, p2)), accel);
      }
    }
  }

  /** The scan keeps the store well formed and conserves total mass and
      momentum; every record it leaves is an original one, except p1, which
      keeps its position; with positive masses it cannot fail. */
  lemma {:induction false} ScanPreserves(ps: seq<Body>, p1: Body, j: nat, res: Vec, altered: bool, accel: Accel)
    requires AccelOk(accel)
    requires UniqueIds(ps) && p1 in ps
    ensures var r := Scan(ps, p1, j, res, altered, accel);
      (PositiveMasses(ps) && p1.mass > 0.0 ==> r.Success?) &&
      (r.Success? ==>
        UniqueIds(r.value.planets) && r.value.p1 in r.value.planets &&
        (forall b :: b in r.value.planets ==> b in ps || (b.id == p1.id && b.x == p1.x && b.y == p1.y)) &&
        (forall q: Quantity :: Total(r.value.planets, q) == Total(ps, q)) &&
        (PositiveMasses(ps) ==> PositiveMasses(r.value.planets)))
    decreases |ps| - j
  {
    if j < |ps| {
      var p2 := ps[j];
      if p1.id == p2.id {
        ScanPreserves(ps, p1, j + 1, res, altered, accel);
      } else if Close(p1, p2) {
        if PositiveMasses(ps) {
          assert p1.mass > 0.0 && p2.mass > 0.0;
        }
        match Combine(ps, p1, p2)
        case Failure(e) =>
        case Success(rest) =>
          var m := Merged(p1, p2);
          CombineStore(ps, p1, p2);
          forall q: Quantity
            ensures Total(rest, q) == Total(ps, q)
          {
            CombineConserves(ps, p1, p2, q);
          }
          ScanPreserves(rest, m, j + 1, res, true, accel);
          if PositiveMasses(ps) {
            assert PositiveMasses(rest);
          }
      } else {
        ScanPreserves(ps, p1, j + 1, Add(res, accel(p1, p2)), altered, accel);
      }
    }
  }

  /** One iteration of the outer loop `for p1 in self.planets`, for the
      planet at index k, with the time step already scaled. */
  function Visit(ps: seq<Body>, k: nat, dt: real, bounce: bool, accel: Accel): (r: Result<seq<Body>, MergeError>)
    requires AccelOk(accel)
    requires k < |ps|
    ensures r.Success? ==> |r.value| <= |ps|
  {
    match Scan(ps, ps[k], 0, Zero, false, accel)
    case Failure(e) => Failure(e)
    case Success(s) =>
      if s.altered then Success(s.planets)
      else
        var b := Integrate(s.p1, s.res, dt);
        if bounce then Success(ReplaceId(s.planets, Reflect(b, dt)))
        else if OutOfBounds(b) then Success(RemoveId(s.planets, b.id))
        else Success(ReplaceId(s.planets, b))
  }

  /** If some other planet, at index i, lies within the merge threshold of
      the planet at index k, that planet is neither integrated nor
      boundary-checked in its pass: the pass leaves the list exactly as the
      merges of the scan left it, and the planet stays at its position. */
  lemma VisitMerging(ps: seq<Body>, k: nat, i: nat, dt: real, bounce: bool, accel: Accel)
    requires AccelOk(accel)
    requires UniqueIds(ps) && k < |ps| && i < |ps| && i != k && Close(ps[k], ps[i])
    ensures var r := Visit(ps, k, dt, bounce, accel);
      var s := Scan(ps, ps[k], 0, Zero, false, accel);
      r.Success? ==> s.Success? && r.value == s.value.planets && s.value.p1 in r.value
    ensures var r := Visit(ps, k, dt, bounce, accel);
      r.Success? ==>
        exists b :: (b in r.value && b.id == ps[k].id && b.x == ps[k].x && b.y == ps[k].y)
  {
    ScanAltered(ps, ps[k], 0, Zero, false, accel);
    ScanPreserves(ps, ps[k], 0, Zero, false, accel);
    match Scan(ps, ps[k], 0, Zero, false, accel)
    case Failure(_) =>
    case Success(s) =>
      assert s.p1 in Visit(ps, k, dt, bounce, accel).value;
  }

  /** The planet at index k integrated with the reference resultant. */
  function FreeStep(ps: seq<Body>, k: nat, dt: real, accel: Accel): Body
    requires AccelOk(accel)
    requires k < |ps|
  {
    Integrate(ps[k], Resultant(ps, ps[k], accel), dt)
  }

  /** The free-planet pass as a list of records: p1's slot replaced or removed. */
  lemma VisitFreeList(ps: seq<Body>, k: nat, dt: real, bounce: bool, accel: Accel)
    requires AccelOk(accel)
    requires UniqueIds(ps) && k < |ps| && !CloseAhead(ps, ps[k], 0)
    ensures var b := FreeStep(ps, k, dt, accel);
      Visit(ps, k, dt, bounce, accel) ==
        if bounce then Success(ps[k := Reflect(b, dt)])
        else if OutOfBounds(b) then Success(ps[..k] + ps[k + 1..])
        else Success(ps[k := b])
  {
    ScanFree(ps, ps[k], 0, Zero, accel);
    assert ps[0..] == ps;
    var b := FreeStep(ps, k, dt, accel);
    assert Add(Zero, Resultant(ps, ps[k], accel)) == Resultant(ps, ps[k], accel);
    if bounce {
      ReplaceIdAt(ps, k, Reflect(b, dt));
    } else if OutOfBounds(b) {
      RemoveIdAt(ps, k);
    } else {
      ReplaceIdAt(ps, k, b);
    }
  }

  /** A planet with nobody within the merge threshold is integrated with the
      reference resultant and then, in bounce mode, reflected and kept; in
      cull mode kept exactly when it is inside the viewport. */
  lemma VisitFree(ps: seq<Body>, k: nat, dt: real, bounce: bool, accel: Accel)
    requires AccelOk(accel)
    requires UniqueIds(ps) && k < |ps| && !CloseAhead(ps, ps[k], 0)
    ensures Visit(ps, k, dt, bounce, accel).Success?
    ensures |Visit(ps, k, dt, bounce, accel).value| ==
      if !bounce && OutOfBounds(FreeStep(ps, k, dt, accel)) then |ps| - 1 else |ps|
    ensures bounce ==> Visit(ps, k, dt, bounce, accel).value[k] == Reflect(FreeStep(ps, k, dt, accel), dt)
    ensures !bounce && !OutOfBounds(FreeStep(ps, k, dt, accel)) ==>
      Visit(ps, k, dt, bounce, accel).value[k] == FreeStep(ps, k, dt, accel)
  {
    VisitFreeList(ps, k, dt, bounce, accel);
  }

  /** In the same situation every other planet keeps its record and its
      relative order. */
  lemma VisitFreeOthers(ps: seq<Body>, k: nat, dt: real, bounce: bool, accel: Accel)
    requires AccelOk(accel)
    requires UniqueIds(ps) && k < |ps| && !CloseAhead(ps, ps[k], 0)
    ensures Visit(ps, k, dt, bounce, accel).Success?
    ensures var r := Visit(ps, k, dt, bounce, accel).value;
      |r| >= |ps| - 1 &&
      (forall i :: 0 <= i < k ==> r[i] == ps[i]) &&
      (|r| == |ps| ==> forall i :: k < i < |ps| ==> r[i] == ps[i]) &&
      (|r| < |ps| ==> forall i :: k <= i < |r| ==> r[i] == ps[i + 1])
  {
    VisitFreeList(ps, k, dt, bounce, accel);
  }

  /** What one outer iteration preserves: distinct identities, no new
      identities, no growth, positive masses (under which it cannot fail),
      the total mass in bounce mode (cull can only lower it), and planets
      staying inside the viewport. */
  lemma VisitPreserves(ps: seq<Body>, k: nat, dt: real, bounce: bool, accel: Accel)
    requires AccelOk(accel)
    requires UniqueIds(ps) && k < |ps|
    ensures var r := Visit(ps, k, dt, bounce, accel);
      (PositiveMasses(ps) ==> r.Success?) &&
      (r.Success? ==>
        UniqueIds(r.value) && |r.value| <= |ps| && Ids(r.value) <= Ids(ps) &&
        (PositiveMasses(ps) ==> PositiveMasses(r.value)) &&
        (bounce ==> Total(r.value, Mass) == Total(ps, Mass)) &&
        (PositiveMasses(ps) ==> Total(r.value, Mass) <= Total(ps, Mass)) &&
        (AllInside(ps) ==> AllInside(r.value)))
  {
    var p1 := ps[k];
    ScanPreserves(ps, p1, 0, Zero, false, accel);
    match Scan(ps, p1, 0, Zero, false, accel)
    case Failure(e) =>
    case Success(s) =>
      assert Total(s.planets, Mass) == Total(ps, Mass);
      assert Ids(s.planets) <= Ids(ps);
      if !s.altered {
        var b := Integrate(s.p1, s.res, dt);
        if bounce {
          var c := Reflect(b, dt);
          ReplaceIdUnique(s.planets, c);
          TotalReplace(s.planets, s.p1, c, Mass);
          BounceReturns(s.p1, s.res, dt);
        } else if OutOfBounds(b) {
          RemoveIdUnique(s.planets, b.id);
          TotalRemove(s.planets, s.p1, Mass);
        } else {
          ReplaceIdUnique(s.planets, b);
          TotalReplace(s.planets, s.p1, b, Mass);
        }
      }
  }
}
