/** Dragging a box with the mouse: the snapshot a press takes and the origin
    the box is moved to on every later frame. */
module Drag {
  import opened Linear
  import opened Components
  import opened World

  /** The snapshot a left press on `c` at `impact` takes, with the mouse ray
      `ray`: the current orientation, `impact - origin`, and the distance
      `|ray.origin - impact|`. */
  function DragStart(c: Component, impact: Vec3, ray: Ray, num: Numerics): (r: DragState)
    ensures r.originOrientation == c.orientation
    ensures c.origin.Add(r.localHandleOffset) == impact
  {
    DragState(c.orientation, impact.Sub(c.origin), num.norm(ray.origin.Sub(impact)))
  }

  /** The point the grabbed handle should be at: the camera distance along the
      current mouse ray. */
  function Terminus(ds: DragState, ray: Ray, num: Numerics): Vec3 {
    ray.origin.Add(num.normalize(ray.dir).Scaled(ds.cameraDist))
  }

  /** The handle offset turned by the rotation the box has undergone since the
      press (`orientation / origin_orientation`). */
  function TurnedOffset(c: Component, ds: DragState, num: Numerics): Vec3 {
    num.rotate(Div(c.orientation, ds.originOrientation), ds.localHandleOffset)
  }

  /** The origin a drag update gives the selected box: the handle, turned with
      the box, lands exactly on the terminus. */
  function DraggedOrigin(c: Component, ds: DragState, ray: Ray, num: Numerics): (r: Vec3)
    ensures r.Add(TurnedOffset(c, ds, num)) == Terminus(ds, ray, num)
  {
    Terminus(ds, ray, num).Sub(TurnedOffset(c, ds, num))
  }

  /** The laws the floating-point numerics approximate: a quaternion divided
      by itself does not rotate, the norm scales with the absolute value of a
      factor, and a direction scaled back by its norm is itself. */
  ghost predicate Lawful(num: Numerics) {
    (forall q, v :: num.rotate(Div(q, q), v) == v) &&
    (forall v: Vec3, k: real :: num.norm(v.Scaled(k)) == (if k < 0.0 then -k else k) * num.norm(v)) &&
    (forall v: Vec3 :: Denormalized(num, v) == v)
  }

  /** The direction of `v` scaled back by the norm of `v`. */
  function Denormalized(num: Numerics, v: Vec3): Vec3 {
    num.normalize(v).Scaled(num.norm(v))
  }

  /** A drag is anchored: updating with the very ray of the press, before the
      box has turned, leaves the box where it was. */
  lemma DragStartIsAnchored(c: Component, toi: real, ray: Ray, num: Numerics)
    requires Lawful(num) && toi >= 0.0
    ensures DraggedOrigin(c, DragStart(c, ray.At(toi), ray, num), ray, num) == c.origin
  {
    var p := ray.At(toi);
    var ds := DragStart(c, p, ray, num);
    PressDistance(ray, toi, num);
    assert Denormalized(num, ray.dir) == ray.dir;
    TerminusAtPress(ray, toi, num);
    assert Terminus(ds, ray, num) == p;
    assert TurnedOffset(c, ds, num) == p.Sub(c.origin);
    var o := DraggedOrigin(c, ds, ray, num);
    assert o.x == c.origin.x && o.y == c.origin.y && o.z == c.origin.z;
  }

  /** While the mouse ray stays where it was at the press, turning the box
      (with the rotation keys, which work during a drag) moves it so that the
      grabbed point stays at the press's impact: the new origin plus the turned
      handle offset is the impact point. */
  lemma TurnedDragKeepsGrabPoint(c: Component, turned: Component, toi: real, ray: Ray, num: Numerics)
    requires Lawful(num) && toi >= 0.0
    ensures var ds := DragStart(c, ray.At(toi), ray, num);
            DraggedOrigin(turned, ds, ray, num).Add(TurnedOffset(turned, ds, num)) == ray.At(toi)
  {
    var ds := DragStart(c, ray.At(toi), ray, num);
    PressDistance(ray, toi, num);
    assert Denormalized(num, ray.dir) == ray.dir;
    TerminusAtPress(ray, toi, num);
    assert Terminus(ds, ray, num) == ray.At(toi);
  }

  /** The distance a press records is the time of impact times the length of
      the ray's direction. */
  lemma PressDistance(ray: Ray, toi: real, num: Numerics)
    requires Lawful(num) && toi >= 0.0
    ensures num.norm(ray.origin.Sub(ray.At(toi))) == toi * num.norm(ray.dir)
  {
    var back := ray.origin.Sub(ray.At(toi));
    assert back.x == -toi * ray.dir.x && back.y == -toi * ray.dir.y && back.z == -toi * ray.dir.z;
    assert back == ray.dir.Scaled(-toi);
    assert num.norm(ray.dir.Scaled(-toi)) == toi * num.norm(ray.dir);
  }

  /** Going that distance along the normalised direction reaches the impact
      point again. */
  lemma TerminusAtPress(ray: Ray, toi: real, num: Numerics)
    requires Denormalized(num, ray.dir) == ray.dir
    ensures ray.origin.Add(num.normalize(ray.dir).Scaled(toi * num.norm(ray.dir))) == ray.At(toi)
  {
    ScaleBack(ray.origin, ray.dir, num.normalize(ray.dir), num.norm(ray.dir), toi);
  }

  lemma ScaleBack(o: Vec3, d: Vec3, u: Vec3, n: real, toi: real)
    requires u.Scaled(n) == d
    ensures o.Add(u.Scaled(toi * n)) == o.Add(d.Scaled(toi))
  {
    assert toi * n * u.x == toi * d.x by { assert toi * n * u.x == toi * (n * u.x); }
    assert toi * n * u.y == toi * d.y by { assert toi * n * u.y == toi * (n * u.y); }
    assert toi * n * u.z == toi * d.z by { assert toi * n * u.z == toi * (n * u.z); }
  }
}
