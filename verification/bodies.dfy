/** The body store of Gravity.py: planet records, the viewport and the
    list operations `PlanetControl` performs on its `planets` list. */
module Bodies {
  import opened Wrappers

  /** Object identity of a planet; Python compares planets with `!=` on objects. */
  type Id = nat

  /** A planet record (x, y, mass, vx, vy), plus the identity of the object. */
  datatype Body = Body(id: Id, x: real, y: real, mass: real, vx: real, vy: real)

  /** A two-dimensional vector, used for accelerations. */
  datatype Vec = Vec(x: real, y: real)

  const Zero: Vec := Vec(0.0, 0.0)

  function Add(a: Vec, b: Vec): Vec
  {
    Vec(a.x + b.x, a.y + b.y)
  }

  /** Viewport bounds (`windowX`, `windowY`). */
  const WindowX: real := 1280.0
  const WindowY: real := 720.0

  predicate OutX(b: Body)
  {
    b.x > WindowX || b.x < 0.0
  }

  predicate OutY(b: Body)
  {
    b.y > WindowY || b.y < 0.0
  }

  /** The condition under which cull mode deletes a planet. */
  predicate OutOfBounds(b: Body)
  {
    OutX(b) || OutY(b)
  }

  predicate Inside(b: Body)
  {
    0.0 <= b.x <= WindowX && 0.0 <= b.y <= WindowY
  }

  predicate AllInside(ps: seq<Body>)
  {
    forall b :: b in ps ==> Inside(b)
  }

  predicate PositiveMasses(ps: seq<Body>)
  {
    forall b :: b in ps ==> b.mass > 0.0
  }

  /** No object appears twice in the list. */
  predicate UniqueIds(ps: seq<Body>)
  {
    forall i, j :: 0 <= i < j < |ps| ==> ps[i].id != ps[j].id
  }

  predicate HasId(ps: seq<Body>, id: Id)
  {
    exists i :: 0 <= i < |ps| && ps[i].id == id
  }

  function Ids(ps: seq<Body>): set<Id>
  {
    set b | b in ps :: b.id
  }

  /** Position of the first planet with identity `id`, as `list.remove` finds it. */
  function IndexOf(ps: seq<Body>, id: Id): (r: Option<nat>)
    ensures r.Some? ==> r.value < |ps| && ps[r.value].id == id
    ensures r.Some? ==> forall i :: 0 <= i < r.value ==> ps[i].id != id
    ensures r.None? <==> !HasId(ps, id)
  {
    if ps == [] then None
    else if ps[0].id == id then Some(0)
    else
      match IndexOf(ps[1..], id)
      case None =>
        assert forall i :: 1 <= i < |ps| ==> ps[i] == ps[1..][i - 1];
        None
      case Some(i) => Some(i + 1)
  }

  /** `list.remove(p)`: drops the first planet with that identity; a no-op
      when there is none. Both callers only remove a planet that is present:
      `Combine` checks first, and the cull step removes p1, which is never
      removed during its own scan. */
  function RemoveId(ps: seq<Body>, id: Id): (r: seq<Body>)
    ensures HasId(ps, id) ==> |r| == |ps| - 1
    ensures !HasId(ps, id) ==> r == ps
    ensures forall b :: b in r ==> b in ps
  {
    match IndexOf(ps, id)
    case None => ps
    case Some(i) => ps[..i] + ps[i + 1..]
  }

  /** Mutating the fields of the planet object whose identity is `b.id`:
      every other entry of the list is untouched. */
  function ReplaceId(ps: seq<Body>, b: Body): (r: seq<Body>)
    ensures |r| == |ps|
    ensures forall i :: 0 <= i < |ps| && ps[i].id != b.id ==> r[i] == ps[i]
    ensures UniqueIds(ps) ==> forall i :: 0 <= i < |ps| && ps[i].id == b.id ==> r[i] == b
    ensures forall c :: c in r ==> c in ps || c == b
  {
    match IndexOf(ps, b.id)
    case None => ps
    case Some(i) => ps[i := b]
  }

  /** With distinct identities, removing by identity removes that slot. */
  lemma RemoveIdAt(ps: seq<Body>, i: nat)
    requires UniqueIds(ps) && i < |ps|
    ensures RemoveId(ps, ps[i].id) == ps[..i] + ps[i + 1..]
  {
  }

  /** With distinct identities, mutating an object overwrites its slot. */
  lemma ReplaceIdAt(ps: seq<Body>, i: nat, b: Body)
    requires UniqueIds(ps) && i < |ps| && ps[i].id == b.id
    ensures ReplaceId(ps, b) == ps[i := b]
  {
  }

  /** Dropping one entry keeps identities distinct and removes that identity. */
  lemma RemoveIdUnique(ps: seq<Body>, id: Id)
    requires UniqueIds(ps)
    ensures UniqueIds(RemoveId(ps, id)) && !HasId(RemoveId(ps, id), id)
    ensures forall b :: b in ps && b.id != id ==> b in RemoveId(ps, id)
  {
  }

  /** Mutating one object in place keeps identities distinct. */
  lemma ReplaceIdUnique(ps: seq<Body>, b: Body)
    requires UniqueIds(ps)
    ensures UniqueIds(ReplaceId(ps, b))
    ensures HasId(ps, b.id) ==> b in ReplaceId(ps, b)
  {
  }

  /** Quantities the model sums over the store. */
  datatype Quantity = Mass | MomentumX | MomentumY

  function Amount(b: Body, q: Quantity): real
  {
    match q
    case Mass => b.mass
    case MomentumX => b.mass * b.vx
    case MomentumY => b.mass * b.vy
  }

  /** The sum of a quantity over every planet of the store. */
  function Total(ps: seq<Body>, q: Quantity): real
  {
    if ps == [] then 0.0 else Amount(ps[0], q) + Total(ps[1..], q)
  }

  lemma {:induction false} TotalConcat(a: seq<Body>, b: seq<Body>, q: Quantity)
    ensures Total(a + b, q) == Total(a, q) + Total(b, q)
  {
    if a == [] {
      assert a + b == b;
    } else {
      assert (a + b)[1..] == a[1..] + b;
      TotalConcat(a[1..], b, q);
    }
  }

  lemma TotalSplit(ps: seq<Body>, i: nat, q: Quantity)
    requires i < |ps|
    ensures Total(ps, q) == Total(ps[..i], q) + Amount(ps[i], q) + Total(ps[i + 1..], q)
  {
    assert ps == ps[..i] + ([ps[i]] + ps[i + 1..]);
    TotalConcat(ps[..i], [ps[i]] + ps[i + 1..], q);
    TotalConcat([ps[i]], ps[i + 1..], q);
  }

  /** Removing a planet removes exactly its share of the total. */
  lemma TotalRemove(ps: seq<Body>, b: Body, q: Quantity)
    requires UniqueIds(ps) && b in ps
    ensures Total(RemoveId(ps, b.id), q) == Total(ps, q) - Amount(b, q)
  {
    var i :| 0 <= i < |ps| && ps[i] == b;
    RemoveIdAt(ps, i);
    TotalSplit(ps, i, q);
    TotalConcat(ps[..i], ps[i + 1..], q);
  }

  /** Overwriting a planet changes the total by the difference of the two records. */
  lemma TotalReplace(ps: seq<Body>, prev: Body, b: Body, q: Quantity)
    requires UniqueIds(ps) && prev in ps && prev.id == b.id
    ensures Total(ReplaceId(ps, b), q) == Total(ps, q) - Amount(prev, q) + Amount(b, q)
  {
    var i :| 0 <= i < |ps| && ps[i] == prev;
    ReplaceIdAt(ps, i, b);
    var r := ps[i := b];
    TotalSplit(ps, i, q);
    TotalSplit(r, i, q);
    assert r[..i] == ps[..i];
    assert r[i + 1..] == ps[i + 1..];
  }
}
