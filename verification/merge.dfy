/** Collision handling: the merge trigger of `update` and `combine_planets`. */
module Merge {
  import opened Wrappers
  import opened Bodies

  /** Why `combine_planets` raises instead of merging. */
  datatype MergeError =
    | SelfMerge      // p1 is p2: the explicit `raise ValueError`
    | ZeroTotalMass  // the two masses sum to zero: division by zero
    | MissingBody    // p2 is not in the list: `list.remove` raises

  /** Squared distance below which two planets collide. */
  const MergeThreshold: real := 5.0

  /** The merge trigger `r**2 < 5` with `r = sqrt(dx**2 + dy**2)`; over
      the reals the square root and the square cancel. */
  predicate Close(p1: Body, p2: Body)
  {
    var dx := p2.x - p1.x;
    var dy := p2.y - p1.y;
    dx * dx + dy * dy < MergeThreshold
  }

  /** Both members of a pair see the same trigger, so the scan of either
      one would merge the pair. */
  lemma CloseSymmetric(a: Body, b: Body)
    ensures Close(a, b) <==> Close(b, a)
  {
  }

  /** The survivor of a merge: p1's identity and position, the summed mass
      and the momentum-weighted velocity. */
  function Merged(p1: Body, p2: Body): (m: Body)
    requires p1.mass + p2.mass != 0.0
    ensures m.id == p1.id && m.x == p1.x && m.y == p1.y
    ensures m.mass == p1.mass + p2.mass
    ensures Amount(m, MomentumX) == Amount(p1, MomentumX) + Amount(p2, MomentumX)
    ensures Amount(m, MomentumY) == Amount(p1, MomentumY) + Amount(p2, MomentumY)
  {
    var mass := p1.mass + p2.mass;
    var mx := p1.mass * p1.vx + p2.mass * p2.vx;
    var my := p1.mass * p1.vy + p2.mass * p2.vy;
    p1.(mass := mass, vx := mx / mass, vy := my / mass)
  }

  /** `combine_planets(p1, p2)` on the planet list: removes p2 and turns
      the object p1 into the merged body. */
  function Combine(ps: seq<Body>, p1: Body, p2: Body): (r: Result<seq<Body>, MergeError>)
    ensures p1.id == p2.id ==> r == Failure(SelfMerge)
    ensures p1.id != p2.id && p1.mass + p2.mass == 0.0 ==> r == Failure(ZeroTotalMass)
    ensures p1.id != p2.id && p1.mass + p2.mass != 0.0 && !HasId(ps, p2.id) ==> r == Failure(MissingBody)
    ensures r.Success? ==> p1.id != p2.id && p1.mass + p2.mass != 0.0 && HasId(ps, p2.id)
    ensures r.Success? ==> |r.value| == |ps| - 1
  {
    if p1.id == p2.id then Failure(SelfMerge)
    else if p1.mass + p2.mass == 0.0 then Failure(ZeroTotalMass)
    else if !HasId(ps, p2.id) then Failure(MissingBody)
    else Success(ReplaceId(RemoveId(ps, p2.id), Merged(p1, p2)))
  }

  /** A merge removes exactly p2: every other planet keeps its record and
      its relative order, except p1, which becomes the merged body. */
  lemma CombineKeepsOrder(ps: seq<Body>, p1: Body, p2: Body, i2: nat)
    requires UniqueIds(ps) && i2 < |ps| && ps[i2].id == p2.id
    requires p1.id != p2.id && p1.mass + p2.mass != 0.0
    ensures Combine(ps, p1, p2).Success?
    ensures var r := Combine(ps, p1, p2).value;
      |r| == |ps| - 1 &&
      (forall i :: 0 <= i < i2 ==> r[i] == (if ps[i].id == p1.id then Merged(p1, p2) else ps[i])) &&
      (forall i :: i2 <= i < |r| ==> r[i] == (if ps[i + 1].id == p1.id then Merged(p1, p2) else ps[i + 1]))
  {
  }

  /** After a merge the list still holds distinct objects, p2 is gone for
      good, the merged p1 is present, and nothing else is new. */
  lemma CombineStore(ps: seq<Body>, p1: Body, p2: Body)
    requires UniqueIds(ps) && p1 in ps
    requires Combine(ps, p1, p2).Success?
    ensures var r := Combine(ps, p1, p2).value;
      UniqueIds(r) && !HasId(r, p2.id) && Merged(p1, p2) in r &&
      (forall b :: b in r ==> b in ps || b == Merged(p1, p2)) &&
      (forall b :: b in ps && b.id != p1.id && b.id != p2.id ==> b in r)
  {
    var rest := RemoveId(ps, p2.id);
    RemoveIdUnique(ps, p2.id);
    assert p1 in rest;
    ReplaceIdUnique(rest, Merged(p1, p2));
    var r := ReplaceId(rest, Merged(p1, p2));
    forall b | b in ps && b.id != p1.id && b.id != p2.id
      ensures b in r
    {
      var i :| 0 <= i < |rest| && rest[i] == b;
      assert r[i] == b;
    }
  }

  /** A merge conserves the total mass and total momentum of the store. */
  lemma {:induction false} CombineConserves(ps: seq<Body>, p1: Body, p2: Body, q: Quantity)
    requires UniqueIds(ps) && p1 in ps && p2 in ps
    requires Combine(ps, p1, p2).Success?
    ensures Total(Combine(ps, p1, p2).value, q) == Total(ps, q)
  {
    var rest := RemoveId(ps, p2.id);
    TotalRemove(ps, p2, q);
    RemoveIdUnique(ps, p2.id);
    TotalReplace(rest, p1, Merged(p1, p2), q);
  }
}
