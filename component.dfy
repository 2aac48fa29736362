/** One placeable box (`Component`) and the list of shared boxes the editor owns. */
module Components {
  import opened Options
  import opened Linear
  import Constants

  /** The fields of a box. `hovered` is the highlight flag the frame loop
      writes each frame. */
  datatype Component = Component(origin: Vec3, orientation: Quat, scale: Vec3, color: Vec3, hovered: bool)

  /** `Component::new`: white, unit scale, identity orientation, and origin
      `Vector3::identity()`, which is the unit x vector. */
  function New(): Component {
    Component(VectorIdentity, Identity, Ones, Ones, false)
  }

  /** The point a doubled-coordinate corner stands for (each coordinate ±0.5). */
  function CornerPoint(p: Constants.Corner): Vec3 {
    Vec3(p.x as real / 2.0, p.y as real / 2.0, p.z as real / 2.0)
  }

  /** `Component::edges`: the edge table with every endpoint multiplied
      component-wise by the box's scale (origin and orientation are not applied). */
  function Edges(c: Component): seq<(Vec3, Vec3)> {
    var table := Constants.BoxEdges();
    seq(|table|, k requires 0 <= k < |table| =>
      (CornerPoint(table[k].0).ComponentMul(c.scale), CornerPoint(table[k].1).ComponentMul(c.scale)))
  }

  /** A segment of the box `scale` centred at the origin: both ends are
      corners of that box (every coordinate is ±scale/2 on its axis), and they
      differ on exactly one axis, where they are opposite. */
  predicate IsScaledCubeEdge(seg: (Vec3, Vec3), scale: Vec3) {
    var (p, q) := seg;
    (p.x == scale.x / 2.0 || p.x == -scale.x / 2.0) && (q.x == scale.x / 2.0 || q.x == -scale.x / 2.0) &&
    (p.y == scale.y / 2.0 || p.y == -scale.y / 2.0) && (q.y == scale.y / 2.0 || q.y == -scale.y / 2.0) &&
    (p.z == scale.z / 2.0 || p.z == -scale.z / 2.0) && (q.z == scale.z / 2.0 || q.z == -scale.z / 2.0) &&
    ((p.x == -q.x && p.y == q.y && p.z == q.z) ||
     (p.x == q.x && p.y == -q.y && p.z == q.z) ||
     (p.x == q.x && p.y == q.y && p.z == -q.z))
  }

  /** `edges` yields one segment per table entry, in table order, and each is an
      edge of the box of size `scale` centred at the origin. */
  lemma EdgesAreScaledCubeEdges(c: Component)
    ensures |Edges(c)| == |Constants.BoxEdges()| == 24
    ensures forall k :: 0 <= k < |Edges(c)| ==> IsScaledCubeEdge(Edges(c)[k], c.scale)
  {
    Constants.BoxEdgesShape();
    var table := Constants.BoxEdges();
    var edges := Edges(c);
    forall k | 0 <= k < |edges| ensures IsScaledCubeEdge(edges[k], c.scale) {
      ScaledCornerEdge(table[k].0, table[k].1, c.scale);
    }
  }

  /** One table entry, scaled, is an edge of the scaled box. */
  lemma ScaledCornerEdge(p: Constants.Corner, q: Constants.Corner, scale: Vec3)
    requires Constants.UnitCoords(p) && Constants.UnitCoords(q) && Constants.OneAxisApart((p, q))
    ensures IsScaledCubeEdge((CornerPoint(p).ComponentMul(scale), CornerPoint(q).ComponentMul(scale)), scale)
  {
    ScaledAxis(p.x, q.x, scale.x);
    ScaledAxis(p.y, q.y, scale.y);
    ScaledAxis(p.z, q.z, scale.z);
  }

  /** One axis of a scaled corner pair: each end lands on ±s/2, equal ends stay
      equal and opposite ends stay opposite. */
  lemma ScaledAxis(a: int, b: int, s: real)
    requires (a == 1 || a == -1) && (b == 1 || b == -1)
    ensures (a as real / 2.0) * s == s / 2.0 || (a as real / 2.0) * s == -s / 2.0
    ensures (b as real / 2.0) * s == s / 2.0 || (b as real / 2.0) * s == -s / 2.0
    ensures a == b ==> (a as real / 2.0) * s == (b as real / 2.0) * s
    ensures a == -b ==> (a as real / 2.0) * s == -((b as real / 2.0) * s)
  {
  }

  /** With unit scale, `edges` is the edge table itself. */
  lemma UnitScaleEdgesAreTable(c: Component)
    requires c.scale == Ones
    ensures |Edges(c)| == |Constants.BoxEdges()|
    ensures forall k :: 0 <= k < |Edges(c)| ==>
      Edges(c)[k] == (CornerPoint(Constants.BoxEdges()[k].0), CornerPoint(Constants.BoxEdges()[k].1))
  {
  }

  /** The collision shape: an axis-aligned cuboid given by its half extents. */
  datatype Cuboid = Cuboid(halfExtents: Vec3)

  /** `Component::cuboid`: the half extents are half the scale. */
  function CuboidOf(c: Component): (r: Cuboid)
    ensures r.halfExtents.Scaled(2.0) == c.scale
    ensures c.scale.NonNegative() ==> r.halfExtents.NonNegative()
  {
    Cuboid(Vec3(c.scale.x / 2.0, c.scale.y / 2.0, c.scale.z / 2.0))
  }

  /** `Component::cuboid_transform`: origin as translation, orientation as
      rotation. */
  function CuboidTransform(c: Component): Isometry {
    Isometry(c.origin, c.orientation)
  }

  /** The placement used for picking ignores scale: boxes that differ only in
      scale (or colour, or hover) are placed identically, and the placement
      moves and turns with the box. */
  lemma CuboidTransformIsRigidPart(c: Component, d: Component)
    ensures CuboidTransform(c) == CuboidTransform(d) <==> c.origin == d.origin && c.orientation == d.orientation
  {
  }

  /** A new box is the unit cube: its collision half extents are 0.5 and its
      wireframe is the edge table. */
  lemma NewIsUnitCube()
    ensures New().scale == Ones && New().color == Ones && New().orientation == Identity && !New().hovered
    ensures CuboidOf(New()).halfExtents == Vec3(0.5, 0.5, 0.5)
    ensures forall k :: 0 <= k < |Edges(New())| ==>
      Edges(New())[k] == (CornerPoint(Constants.BoxEdges()[k].0), CornerPoint(Constants.BoxEdges()[k].1))
  {
    UnitScaleEdgesAreTable(New());
  }

  // ---------------------------------------------------------------------------
  // Shared boxes

  /** `Rc<RefCell<Component>>`: a box together with the identity of its
      allocation. Two entries denote the same box exactly when their ids agree. */
  datatype Shared = Shared(id: nat, val: Component)

  /** `components.iter().position(|c| c is the box with this id)`. */
  function IndexOf(cs: seq<Shared>, id: nat): (r: Option<nat>)
    ensures r.None? <==> forall i :: 0 <= i < |cs| ==> cs[i].id != id
    ensures r.Some? ==> r.value < |cs| && cs[r.value].id == id &&
                        forall j :: 0 <= j < r.value ==> cs[j].id != id
    decreases |cs|
  {
    if cs == [] then None
    else if cs[0].id == id then Some(0)
    else match IndexOf(cs[1..], id)
      case None => None
      case Some(i) => Some(i + 1)
  }

  /** Following a reference to a box: the position of the box it names, or
      None when there is no reference or the box is no longer in the list (a
      `Weak` whose box was dropped). */
  function Resolve(cs: seq<Shared>, sel: Option<nat>): (r: Option<nat>)
    ensures r.None? <==> sel.None? || forall i :: 0 <= i < |cs| ==> cs[i].id != sel.value
    ensures r.Some? ==> r.value < |cs| && sel == Some(cs[r.value].id)
  {
    if sel.None? then None else IndexOf(cs, sel.value)
  }

  /** The boxes' fields, in list order. */
  function Boxes(cs: seq<Shared>): (r: seq<Component>)
    ensures |r| == |cs| && forall i :: 0 <= i < |cs| ==> r[i] == cs[i].val
  {
    seq(|cs|, i requires 0 <= i < |cs| => cs[i].val)
  }

  predicate UniqueIds(cs: seq<Shared>) {
    forall i, j :: 0 <= i < j < |cs| ==> cs[i].id != cs[j].id
  }

  predicate IdsBelow(cs: seq<Shared>, bound: nat) {
    forall i :: 0 <= i < |cs| ==> cs[i].id < bound
  }

  predicate ScalesNonNegative(cs: seq<Shared>) {
    forall i :: 0 <= i < |cs| ==> cs[i].val.scale.NonNegative()
  }

  /** Ids are distinct and all below the next id to hand out. */
  predicate IdsValid(cs: seq<Shared>, nextId: nat) {
    UniqueIds(cs) && IdsBelow(cs, nextId)
  }

  /** The invariant of a box list edited by the frame loop: valid ids, and no
      scale component is negative. */
  predicate WellFormed(cs: seq<Shared>, nextId: nat) {
    IdsValid(cs, nextId) && ScalesNonNegative(cs)
  }

  /** With distinct ids, the position of an id is the only position holding it. */
  lemma IndexOfUnique(cs: seq<Shared>, i: nat)
    requires UniqueIds(cs) && i < |cs|
    ensures IndexOf(cs, cs[i].id) == Some(i)
  {
  }

  /** Appending a box with another id does not move any id's position. */
  lemma {:induction false} IndexOfAppend(cs: seq<Shared>, s: Shared, id: nat)
    requires s.id != id
    ensures IndexOf(cs + [s], id) == IndexOf(cs, id)
    decreases |cs|
  {
    if cs != [] {
      assert (cs + [s])[1..] == cs[1..] + [s];
      IndexOfAppend(cs[1..], s, id);
    }
  }

  /** `Vec::swap_remove`: the last element moves into the freed position. */
  function SwapRemove<T>(s: seq<T>, i: nat): (r: seq<T>)
    requires i < |s|
    ensures |r| == |s| - 1
    ensures i < |r| ==> r[i] == s[|s| - 1]
    ensures forall j :: 0 <= j < |r| && j != i ==> r[j] == s[j]
    ensures multiset(r) + multiset{s[i]} == multiset(s)
  {
    var last := |s| - 1;
    if i == last then
      assert s == s[..last] + [s[last]];
      s[..last]
    else
      SwapRemoveMiddle(s, i);
      s[..i] + [s[last]] + s[i + 1..last]
  }

  /** Moving the last element of `s` into position i < |s| - 1. */
  lemma SwapRemoveMiddle<T>(s: seq<T>, i: nat)
    requires i < |s| - 1
    ensures var r := s[..i] + [s[|s| - 1]] + s[i + 1..|s| - 1];
            |r| == |s| - 1 && r[i] == s[|s| - 1] &&
            (forall j :: 0 <= j < |r| && j != i ==> r[j] == s[j]) &&
            multiset(r) + multiset{s[i]} == multiset(s)
  {
    var last := |s| - 1;
    var r := s[..i] + [s[last]] + s[i + 1..last];
    assert s == s[..i] + [s[i]] + s[i + 1..last] + [s[last]];
    forall j | 0 <= j < |r| && j != i ensures r[j] == s[j] {
      if j < i { assert r[j] == s[..i][j]; } else { assert r[j] == s[i + 1..last][j - i - 1]; }
    }
  }

  /** Removing an entry keeps ids valid (and scales non-negative) and drops
      exactly that id. */
  lemma SwapRemoveWellFormed(cs: seq<Shared>, nextId: nat, i: nat)
    requires IdsValid(cs, nextId) && i < |cs|
    ensures IdsValid(SwapRemove(cs, i), nextId)
    ensures ScalesNonNegative(cs) ==> ScalesNonNegative(SwapRemove(cs, i))
    ensures IndexOf(SwapRemove(cs, i), cs[i].id).None?
    ensures forall j :: 0 <= j < |cs| && j != i ==> IndexOf(SwapRemove(cs, i), cs[j].id).Some?
  {
    var r := SwapRemove(cs, i);
    forall j | 0 <= j < |cs| && j != i ensures IndexOf(r, cs[j].id).Some? {
      if j == |cs| - 1 { assert r[i] == cs[j]; } else { assert r[j] == cs[j]; }
    }
  }

  /** Appending a box with a fresh id keeps ids valid, and keeps scales
      non-negative when the new box's scale is. */
  lemma AppendWellFormed(cs: seq<Shared>, nextId: nat, c: Component)
    requires IdsValid(cs, nextId)
    ensures IdsValid(cs + [Shared(nextId, c)], nextId + 1)
    ensures ScalesNonNegative(cs) && c.scale.NonNegative() ==> ScalesNonNegative(cs + [Shared(nextId, c)])
  {
  }

  /** Replacing the fields of one box keeps ids valid, and keeps scales
      non-negative when the new scale is. */
  lemma UpdateWellFormed(cs: seq<Shared>, nextId: nat, i: nat, c: Component)
    requires IdsValid(cs, nextId) && i < |cs|
    ensures IdsValid(cs[i := cs[i].(val := c)], nextId)
    ensures ScalesNonNegative(cs) && c.scale.NonNegative() ==> ScalesNonNegative(cs[i := cs[i].(val := c)])
  {
  }
}
