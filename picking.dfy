/** Mouse picking and the hover highlight. */
module Picking {
  import opened Options
  import opened Linear
  import opened Components

  /** The ray-cuboid query (`toi_with_ray` with `solid = true`): the time of
      impact of the ray on the cuboid placed by the isometry, if any. */
  type RayCaster = (Cuboid, Isometry, Ray) -> Option<real>

  /** The time of impact of the ray on each box, in list order. */
  function Tois(cs: seq<Shared>, ray: Ray, cast: RayCaster): (r: seq<Option<real>>)
    ensures |r| == |cs|
  {
    seq(|cs|, i requires 0 <= i < |cs| => cast(CuboidOf(cs[i].val), CuboidTransform(cs[i].val), ray))
  }

  /** `filter_map(...).min_by(partial_cmp)`: the position and time of the
      first smallest time of impact among the hits. On a tie the earlier
      position wins, as `min_by` keeps the first of equal elements. */
  function MinToi(tois: seq<Option<real>>): (r: Option<(nat, real)>)
    ensures r.None? <==> forall i :: 0 <= i < |tois| ==> tois[i].None?
    ensures r.Some? ==> r.value.0 < |tois| && tois[r.value.0] == Some(r.value.1)
    ensures r.Some? ==> forall i :: 0 <= i < |tois| && tois[i].Some? ==> r.value.1 <= tois[i].value
    ensures r.Some? ==> forall i :: 0 <= i < r.value.0 && tois[i].Some? ==> r.value.1 < tois[i].value
    decreases |tois|
  {
    if tois == [] then None
    else
      var best := MinToi(tois[..|tois| - 1]);
      match tois[|tois| - 1]
      case None => best
      case Some(t) =>
        if best.None? || t < best.value.1 then Some((|tois| - 1, t)) else best
  }

  /** `nearest_intersection`: the id of the nearest box the ray hits and the
      impact point `origin + toi * dir`. */
  function NearestIntersection(cs: seq<Shared>, ray: Ray, cast: RayCaster): Option<(nat, Vec3)> {
    match MinToi(Tois(cs, ray, cast))
    case None => None
    case Some((i, t)) => Some((cs[i].id, ray.At(t)))
  }

  /** Picking finds nothing exactly when no box is hit (in particular when
      there are no boxes). Otherwise the returned id belongs to a box of the
      list, that box is hit, its time of impact is the smallest among all hits,
      no earlier box is hit as early, and the returned point is the ray at that
      time. */
  lemma NearestIntersectionIsNearest(cs: seq<Shared>, ray: Ray, cast: RayCaster)
    requires UniqueIds(cs)
    ensures var tois := Tois(cs, ray, cast);
            NearestIntersection(cs, ray, cast).None? <==> forall i :: 0 <= i < |cs| ==> tois[i].None?
    ensures var tois := Tois(cs, ray, cast); var r := NearestIntersection(cs, ray, cast);
            r.Some? ==>
              IndexOf(cs, r.value.0).Some? &&
              var i := IndexOf(cs, r.value.0).value;
              tois[i].Some? && r.value.1 == ray.At(tois[i].value) &&
              (forall j :: 0 <= j < |cs| && tois[j].Some? ==> tois[i].value <= tois[j].value) &&
              (forall j :: 0 <= j < i && tois[j].Some? ==> tois[i].value < tois[j].value)
  {
    var tois := Tois(cs, ray, cast);
    var m := MinToi(tois);
    if m.Some? {
      IndexOfUnique(cs, m.value.0);
    }
  }

  // ---------------------------------------------------------------------------
  // Hover

  /** The hover flag every box should carry after the hover pass: set on the
      picked box, clear on every other. */
  function HoverTarget(cs: seq<Shared>, picked: Option<nat>): (r: seq<Shared>)
    ensures |r| == |cs|
    ensures forall i :: 0 <= i < |cs| ==> r[i].id == cs[i].id && r[i].val == cs[i].val.(hovered := r[i].val.hovered)
  {
    seq(|cs|, i requires 0 <= i < |cs| => cs[i].(val := cs[i].val.(hovered := picked == Some(cs[i].id))))
  }

  /** After the hover pass exactly the picked box is hovered; with no hit, no
      box is; ids, order and every other field are kept, and the list stays
      well formed. */
  lemma HoverTargetExactlyPicked(cs: seq<Shared>, nextId: nat, picked: Option<nat>)
    requires WellFormed(cs, nextId)
    ensures WellFormed(HoverTarget(cs, picked), nextId)
    ensures forall i :: 0 <= i < |cs| ==> (HoverTarget(cs, picked)[i].val.hovered <==> picked == Some(cs[i].id))
    ensures picked.None? ==> forall i :: 0 <= i < |cs| ==> !HoverTarget(cs, picked)[i].val.hovered
    ensures picked.Some? && IndexOf(cs, picked.value).Some? ==>
              var k := IndexOf(cs, picked.value).value;
              HoverTarget(cs, picked)[k].val.hovered &&
              forall i :: 0 <= i < |cs| && i != k ==> !HoverTarget(cs, picked)[i].val.hovered
  {
  }

  /** The time of impact of a box depends on its placement and size only, so
      the hover pass does not change what the mouse ray hits: picking again
      after it finds the same box at the same point. */
  lemma HoverKeepsPicking(cs: seq<Shared>, picked: Option<nat>, ray: Ray, cast: RayCaster)
    ensures Tois(HoverTarget(cs, picked), ray, cast) == Tois(cs, ray, cast)
    ensures NearestIntersection(HoverTarget(cs, picked), ray, cast) == NearestIntersection(cs, ray, cast)
  {
    var h := HoverTarget(cs, picked);
    forall i | 0 <= i < |cs|
      ensures Tois(h, ray, cast)[i] == Tois(cs, ray, cast)[i]
    {
      assert CuboidOf(h[i].val) == CuboidOf(cs[i].val);
      assert CuboidTransform(h[i].val) == CuboidTransform(cs[i].val);
    }
    assert Tois(h, ray, cast) == Tois(cs, ray, cast);
  }
}
