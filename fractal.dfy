/** The fractal instancing: every (depth+1)-long tuple of boxes becomes one
    instance, placed by the product of the tuple's transforms and coloured by
    the component-wise product of its colours. */
module Fractal {
  import opened Linear
  import opened Components

  function Pow(b: nat, e: nat): nat
    decreases e
  {
    if e == 0 then 1 else b * Pow(b, e - 1)
  }

  lemma {:induction false} PowAdd(b: nat, e1: nat, e2: nat)
    ensures Pow(b, e1 + e2) == Pow(b, e1) * Pow(b, e2)
    decreases e1
  {
    if e1 > 0 {
      PowAdd(b, e1 - 1, e2);
      calc {
        Pow(b, e1 + e2);
        b * Pow(b, e1 - 1 + e2);
        b * (Pow(b, e1 - 1) * Pow(b, e2));
        (b * Pow(b, e1 - 1)) * Pow(b, e2);
      }
    }
  }

  /** `f` applied to every element, in order. */
  function MapSeq<A, B>(f: A -> B, s: seq<A>): (r: seq<B>)
    ensures |r| == |s|
  {
    seq(|s|, i requires 0 <= i < |s| => f(s[i]))
  }

  /** `f` applied to every element of every tuple. */
  function MapEach<A, B>(f: A -> B, ts: seq<seq<A>>): (r: seq<seq<B>>)
    ensures |r| == |ts|
  {
    seq(|ts|, j requires 0 <= j < |ts| => MapSeq(f, ts[j]))
  }

  lemma MapSeqConcat<A, B>(f: A -> B, s: seq<A>, t: seq<A>)
    ensures MapSeq(f, s + t) == MapSeq(f, s) + MapSeq(f, t)
  {
  }

  // ---------------------------------------------------------------------------
  // Cartesian power

  /** Every tail preceded by every head, heads outermost. */
  function PrependEach<T>(heads: seq<T>, tails: seq<seq<T>>): seq<seq<T>>
    decreases |heads|
  {
    if heads == [] then []
    else seq(|tails|, j requires 0 <= j < |tails| => [heads[0]] + tails[j]) + PrependEach(heads[1..], tails)
  }

  /** `(0..k).map(|_| base.clone()).multi_cartesian_product()`: all k-tuples
      over `base` in lexicographic order of positions, the first position
      varying slowest. */
  function Power<T>(base: seq<T>, k: nat): seq<seq<T>>
    requires k >= 1
    decreases k
  {
    if k == 1 then seq(|base|, i requires 0 <= i < |base| => [base[i]])
    else PrependEach(base, Power(base, k - 1))
  }

  lemma {:induction false} PrependEachLength<T>(heads: seq<T>, tails: seq<seq<T>>)
    ensures |PrependEach(heads, tails)| == |heads| * |tails|
    decreases |heads|
  {
    if heads != [] {
      PrependEachLength(heads[1..], tails);
      assert |heads| * |tails| == |tails| + (|heads| - 1) * |tails|;
    }
  }

  lemma {:induction false} PrependEachMembers<T(!new)>(heads: seq<T>, tails: seq<seq<T>>)
    ensures forall x :: x in PrependEach(heads, tails) <==> |x| >= 1 && x[0] in heads && x[1..] in tails
    decreases |heads|
  {
    if heads != [] {
      PrependEachMembers(heads[1..], tails);
      var row := seq(|tails|, j requires 0 <= j < |tails| => [heads[0]] + tails[j]);
      assert PrependEach(heads, tails) == row + PrependEach(heads[1..], tails);
      forall x: seq<T> | |x| >= 1 && x[0] in heads && x[1..] in tails
        ensures x in PrependEach(heads, tails)
      {
        if x[0] == heads[0] {
          var j :| 0 <= j < |tails| && tails[j] == x[1..];
          assert row[j] == x;
        } else {
          assert x[0] in heads[1..];
        }
      }
      forall x | x in row ensures |x| >= 1 && x[0] in heads && x[1..] in tails {
        var j :| 0 <= j < |row| && row[j] == x;
        assert x[1..] == tails[j];
      }
    }
  }

  /** The power has N^k tuples. */
  lemma {:induction false} PowerLength<T>(base: seq<T>, k: nat)
    requires k >= 1
    ensures |Power(base, k)| == Pow(|base|, k)
    decreases k
  {
    if k > 1 {
      PowerLength(base, k - 1);
      PrependEachLength(base, Power(base, k - 1));
    }
  }

  /** `t` is a k-tuple over `base`. */
  predicate IsTuple<T(==)>(t: seq<T>, base: seq<T>, k: nat)
  {
    |t| == k && forall i :: 0 <= i < k ==> t[i] in base
  }

  /** A tuple longer than one is a head from the base before a shorter tuple. */
  lemma TupleByHead<T>(t: seq<T>, base: seq<T>, k: nat)
    requires k > 1 && |t| >= 1
    ensures IsTuple(t, base, k) <==> t[0] in base && IsTuple(t[1..], base, k - 1)
  {
    if |t| == k {
      assert forall i :: 1 <= i < k ==> t[i] == t[1..][i - 1];
    }
  }

  /** The power holds exactly the k-tuples over the base. */
  lemma {:induction false} PowerMembers<T(!new)>(base: seq<T>, k: nat)
    requires k >= 1
    ensures forall t :: t in Power(base, k) <==> IsTuple(t, base, k)
    decreases k
  {
    if k == 1 {
      PowerOneMembers(base);
    } else {
      PowerMembers(base, k - 1);
      PowerStepMembers(base, k, k - 1);
    }
  }

  /** The base case: the one-tuples. */
  lemma PowerOneMembers<T(!new)>(base: seq<T>)
    ensures forall t :: t in Power(base, 1) <==> IsTuple(t, base, 1)
  {
    var p := Power(base, 1);
    assert |p| == |base| && forall i :: 0 <= i < |base| ==> p[i] == [base[i]];
    forall t: seq<T> | IsTuple(t, base, 1) ensures t in p {
      var i :| 0 <= i < |base| && base[i] == t[0];
      assert p[i] == t;
    }
  }

  /** The step: prepending heads from the base to the (k-1)-tuples. */
  lemma PowerStepMembers<T(!new)>(base: seq<T>, k: nat, j: nat)
    requires j >= 1 && k == j + 1
    requires forall t :: t in Power(base, j) <==> IsTuple(t, base, j)
    ensures forall t :: t in Power(base, k) <==> IsTuple(t, base, k)
  {
    var prev := Power(base, j);
    assert Power(base, k) == PrependEach(base, prev);
    PrependEachMembers(base, prev);
    forall t: seq<T> ensures t in Power(base, k) <==> IsTuple(t, base, k) {
      if |t| >= 1 {
        TupleByHead(t, base, k);
      }
    }
  }

  lemma MapEachConcat<A, B>(f: A -> B, s: seq<seq<A>>, t: seq<seq<A>>)
    ensures MapEach(f, s + t) == MapEach(f, s) + MapEach(f, t)
  {
  }

  lemma {:induction false} PrependEachMap<A, B>(f: A -> B, heads: seq<A>, tails: seq<seq<A>>)
    ensures PrependEach(MapSeq(f, heads), MapEach(f, tails)) == MapEach(f, PrependEach(heads, tails))
    decreases |heads|
  {
    if heads != [] {
      PrependEachMap(f, heads[1..], tails);
      assert MapSeq(f, heads)[1..] == MapSeq(f, heads[1..]);
      var row := seq(|tails|, j requires 0 <= j < |tails| => [heads[0]] + tails[j]);
      MapEachConcat(f, row, PrependEach(heads[1..], tails));
      var mtails := MapEach(f, tails);
      var mrow := seq(|mtails|, j requires 0 <= j < |mtails| => [f(heads[0])] + mtails[j]);
      forall j | 0 <= j < |tails| ensures mrow[j] == MapEach(f, row)[j] {
        assert MapSeq(f, [heads[0]] + tails[j]) == [f(heads[0])] + MapSeq(f, tails[j]);
      }
      assert mrow == MapEach(f, row);
    }
  }

  /** Taking the power of the mapped list is mapping the tuples of the power:
      the two `multi_cartesian_product`s over transforms and over colours
      enumerate the same box tuples in the same order. */
  lemma {:induction false} PowerMap<A, B>(f: A -> B, base: seq<A>, k: nat)
    requires k >= 1
    ensures Power(MapSeq(f, base), k) == MapEach(f, Power(base, k))
    decreases k
  {
    if k == 1 {
      forall i | 0 <= i < |base| ensures Power(MapSeq(f, base), 1)[i] == MapEach(f, Power(base, 1))[i] {
        assert MapSeq(f, [base[i]]) == [f(base[i])];
      }
    } else {
      PowerMap(f, base, k - 1);
      PrependEachMap(f, base, Power(base, k - 1));
    }
  }

  // ---------------------------------------------------------------------------
  // Transforms: the product over a monoid

  /** The transform algebra (`Matrix4` under multiplication, identity `one`). */
  datatype Monoid<!M> = Monoid(mul: (M, M) -> M, one: M)

  ghost predicate IsMonoid<M(!new)>(m: Monoid<M>) {
    (forall a, b, c :: m.mul(m.mul(a, b), c) == m.mul(a, m.mul(b, c))) &&
    (forall a :: m.mul(m.one, a) == a) &&
    (forall a :: m.mul(a, m.one) == a)
  }

  /** `iter().product()`: the left fold of `mul` starting from `one`. */
  function Product<M>(m: Monoid<M>, xs: seq<M>): M
    decreases |xs|
  {
    if xs == [] then m.one else m.mul(Product(m, xs[..|xs| - 1]), xs[|xs| - 1])
  }

  /** In a monoid the product of one element is that element, and the product
      of a concatenation is the product of the two products: the transform of a
      tuple is its members' transforms composed left to right. */
  lemma {:induction false} ProductConcat<M(!new)>(m: Monoid<M>, xs: seq<M>, ys: seq<M>)
    requires IsMonoid(m)
    ensures Product(m, xs + ys) == m.mul(Product(m, xs), Product(m, ys))
    decreases |ys|
  {
    if ys == [] {
      assert xs + ys == xs;
    } else {
      var n := |ys| - 1;
      assert (xs + ys)[..|xs + ys| - 1] == xs + ys[..n];
      ProductConcat(m, xs, ys[..n]);
    }
  }

  lemma ProductSingleton<M(!new)>(m: Monoid<M>, a: M)
    requires IsMonoid(m)
    ensures Product(m, [a]) == a
  {
    assert [a][..0] == [];
  }

  // ---------------------------------------------------------------------------
  // Colours: the component-wise multiply fold

  function ColorMul(a: Vec3, b: Vec3): Vec3 {
    Vec3(a.x * b.x, a.y * b.y, a.z * b.z)
  }

  /** `iter.fold(*first, |acc, x| acc.multiply(*x))`. */
  function ColorFold(cs: seq<Vec3>): Vec3
    requires |cs| >= 1
    decreases |cs|
  {
    if |cs| == 1 then cs[0] else ColorMul(ColorFold(cs[..|cs| - 1]), cs[|cs| - 1])
  }

  /** Colour multiplication forms a monoid with white as its identity. */
  const ColorMonoid := Monoid(ColorMul, Ones)

  lemma ColorMonoidIsMonoid()
    ensures IsMonoid(ColorMonoid)
  {
    forall a: Vec3, b: Vec3, c: Vec3
      ensures ColorMul(ColorMul(a, b), c) == ColorMul(a, ColorMul(b, c))
    {
      assert a.x * b.x * c.x == a.x * (b.x * c.x);
      assert a.y * b.y * c.y == a.y * (b.y * c.y);
      assert a.z * b.z * c.z == a.z * (b.z * c.z);
    }
  }

  /** Folding from the first colour is the product starting from white. */
  lemma {:induction false} ColorFoldIsProduct(cs: seq<Vec3>)
    requires |cs| >= 1
    ensures ColorFold(cs) == Product(ColorMonoid, cs)
    decreases |cs|
  {
    if |cs| == 1 {
      assert cs[..0] == [];
    } else {
      ColorFoldIsProduct(cs[..|cs| - 1]);
    }
  }

  predicate InUnitCube(c: Vec3) {
    0.0 <= c.x <= 1.0 && 0.0 <= c.y <= 1.0 && 0.0 <= c.z <= 1.0
  }

  lemma UnitProduct(a: real, b: real)
    requires 0.0 <= a <= 1.0 && 0.0 <= b <= 1.0
    ensures 0.0 <= a * b <= a
  {
  }

  /** Multiplying colours in [0, 1] never leaves [0, 1]: the fold can only
      darken. */
  lemma {:induction false} ColorFoldInUnitCube(cs: seq<Vec3>)
    requires |cs| >= 1
    requires forall i :: 0 <= i < |cs| ==> InUnitCube(cs[i])
    ensures InUnitCube(ColorFold(cs))
    decreases |cs|
  {
    if |cs| > 1 {
      var pre := cs[..|cs| - 1];
      assert forall i :: 0 <= i < |pre| ==> InUnitCube(pre[i]) by {
        forall i | 0 <= i < |pre| ensures InUnitCube(pre[i]) {
          assert pre[i] == cs[i];
        }
      }
      ColorFoldInUnitCube(pre);
      var a := ColorFold(pre);
      var b := cs[|cs| - 1];
      assert InUnitCube(b);
      assert ColorFold(cs) == ColorMul(a, b);
      UnitProduct(a.x, b.x);
      UnitProduct(a.y, b.y);
      UnitProduct(a.z, b.z);
    }
  }

  /** The fold is a product, not a blend: a colour combined with itself stays
      the same only when each channel is 0 or 1. */
  lemma ColorFoldIsNotBlend(c: Vec3)
    ensures ColorFold([c, c]) == c <==>
      (c.x == 0.0 || c.x == 1.0) && (c.y == 0.0 || c.y == 1.0) && (c.z == 0.0 || c.z == 1.0)
  {
    assert [c, c][..1] == [c];
    var f := ColorFold([c, c]);
    assert ColorFold([c]) == c;
    assert f == Vec3(c.x * c.x, c.y * c.y, c.z * c.z);
    assert f == c <==> c.x * c.x == c.x && c.y * c.y == c.y && c.z * c.z == c.z;
    SquareFixed(c.x);
    SquareFixed(c.y);
    SquareFixed(c.z);
  }

  lemma SquareFixed(a: real)
    ensures a * a == a <==> a == 0.0 || a == 1.0
  {
    if a * a == a {
      assert a * (a - 1.0) == 0.0;
    }
  }

  // ---------------------------------------------------------------------------
  // Regeneration

  /** The number of instances at a depth: N^(depth+1). */
  function CubeCount(n: nat, depth: nat): nat {
    Pow(n, depth + 1)
  }

  /** What a frame does with the instanced scene. */
  datatype RenderOutcome<M> =
    | Unchanged                             // nothing changed this frame
    | OverBudget                            // more than the ceiling: left as is
    | BaseGroupOnly                         // depth 0: only the boxes themselves
    | Iterated(instances: seq<(M, Vec3)>)   // transform and colour per tuple

  /** The colour of a box. */
  function Color(c: Component): Vec3 { c.color }

  /** The transform of every tuple. */
  function Products<M>(m: Monoid<M>, tss: seq<seq<M>>): (r: seq<M>)
    ensures |r| == |tss|
  {
    seq(|tss|, j requires 0 <= j < |tss| => Product(m, tss[j]))
  }

  /** The colour of every tuple (a tuple of the power is never empty). */
  function Folds(tss: seq<seq<Vec3>>): (r: seq<Vec3>)
    ensures |r| == |tss|
  {
    seq(|tss|, j requires 0 <= j < |tss| => if |tss[j]| >= 1 then ColorFold(tss[j]) else Ones)
  }

  /** `transforms.zip(colors)`: pairs up two lists position by position. */
  function Zip<P, Q>(ps: seq<P>, qs: seq<Q>): (r: seq<(P, Q)>)
    requires |ps| == |qs|
    ensures |r| == |ps|
  {
    seq(|ps|, j requires 0 <= j < |ps| => (ps[j], qs[j]))
  }

  /** One instance per (depth+1)-tuple of boxes: the products of the tuples of
      transforms zipped with the colour folds of the tuples of colours. */
  function Instances<M>(cs: seq<Component>, depth: nat, m: Monoid<M>, transform: Component -> M): seq<(M, Vec3)> {
    PowerLength(MapSeq(transform, cs), depth + 1);
    PowerLength(MapSeq(Color, cs), depth + 1);
    Zip(Products(m, Power(MapSeq(transform, cs), depth + 1)), Folds(Power(MapSeq(Color, cs), depth + 1)))
  }

  /** The regeneration step at the end of a frame: skipped when nothing set the
      dirty flag, skipped when N^(depth+1) exceeds the ceiling, only the base
      boxes at depth 0, and otherwise the full instance list. */
  function Regenerate<M>(cs: seq<Component>, depth: nat, dirty: bool, maxCubes: nat,
                         m: Monoid<M>, transform: Component -> M): RenderOutcome<M>
  {
    if !dirty then Unchanged
    else if CubeCount(|cs|, depth) > maxCubes then OverBudget
    else if depth == 0 then BaseGroupOnly
    else Iterated(Instances(cs, depth, m, transform))
  }

  /** An iterated render has exactly N^(depth+1) instances, never more than
      the ceiling, and instance j is the tuple j of the power of the boxes: its
      transform is the product of the tuple's transforms and its colour the fold
      of the tuple's colours, so transforms and colours stay paired. Every
      tuple of boxes has its instance. */
  lemma RegenerateInstances<M>(cs: seq<Component>, depth: nat, dirty: bool, maxCubes: nat,
                               m: Monoid<M>, transform: Component -> M)
    ensures var r := Regenerate(cs, depth, dirty, maxCubes, m, transform);
            r.Iterated? ==>
              dirty && depth >= 1 &&
              |r.instances| == CubeCount(|cs|, depth) <= maxCubes &&
              |Power(cs, depth + 1)| == |r.instances| &&
              forall j :: 0 <= j < |r.instances| ==>
                var t := Power(cs, depth + 1)[j];
                |t| == depth + 1 &&
                r.instances[j] == (Product(m, MapSeq(transform, t)), ColorFold(MapSeq(Color, t)))
  {
    var r := Regenerate(cs, depth, dirty, maxCubes, m, transform);
    if r.Iterated? {
      var k := depth + 1;
      PowerLength(cs, k);
      PowerLength(MapSeq(transform, cs), k);
      PowerMap(transform, cs, k);
      PowerMap(Color, cs, k);
      PowerMembersLength(cs, k);
    }
  }

  /** Every tuple of the power has length k. */
  lemma PowerMembersLength<T(!new)>(base: seq<T>, k: nat)
    requires k >= 1
    ensures forall j :: 0 <= j < |Power(base, k)| ==> |Power(base, k)[j]| == k
  {
    PowerMembers(base, k);
    forall j | 0 <= j < |Power(base, k)| ensures |Power(base, k)[j]| == k {
      assert Power(base, k)[j] in Power(base, k);
    }
  }

  /** Regeneration happens only on dirty frames, never above the ceiling, and
      at depth 0 shows only the base boxes. */
  lemma RegenerateGating<M>(cs: seq<Component>, depth: nat, dirty: bool, maxCubes: nat,
                            m: Monoid<M>, transform: Component -> M)
    ensures var r := Regenerate(cs, depth, dirty, maxCubes, m, transform);
            (r.Unchanged? <==> !dirty) &&
            (r.OverBudget? <==> dirty && Pow(|cs|, depth + 1) > maxCubes) &&
            (r.BaseGroupOnly? <==> dirty && Pow(|cs|, depth + 1) <= maxCubes && depth == 0)
  {
  }

  // ---------------------------------------------------------------------------
  // The cube count as the frame loop computes it

  const U32Modulus: nat := 0x1_0000_0000
  const UsizeModulus: nat := 0x1_0000_0000_0000_0000

  /** `components.len().pow(iteration_depth as u32 + 1)` in a release build:
      the depth is truncated to 32 bits, the `+ 1` wraps at 2^32 and the power
      wraps at 2^64, because overflow checks are off. */
  function CubeCountAsWritten(n: nat, depth: nat): nat {
    Pow(n, (depth % U32Modulus + 1) % U32Modulus) % UsizeModulus
  }

  /** The wrapped count lets the gate through where the true count is far over
      the ceiling: with two boxes at depth 63 the product has 2^64 tuples, yet
      the count computed is 0. */
  lemma CubeCountAsWrittenAdmitsHugeRender()
    ensures CubeCountAsWritten(2, 63) == 0
    ensures CubeCount(2, 63) == UsizeModulus
    ensures CubeCountAsWritten(2, 63) <= 25_000 < CubeCount(2, 63)
  {
    assert (63 % U32Modulus + 1) % U32Modulus == 64;
    assert Pow(2, 8) == 256;
    PowAdd(2, 8, 8);
    assert Pow(2, 16) == 0x1_0000;
    PowAdd(2, 16, 16);
    assert Pow(2, 32) == 0x1_0000_0000;
    PowAdd(2, 32, 32);
    assert Pow(2, 64) == UsizeModulus;
  }

  /** With the exact count the gate bounds the work: whatever the depth, an
      iterated render never has more instances than the ceiling. */
  lemma RegenerateWithinBudget<M>(cs: seq<Component>, depth: nat, maxCubes: nat,
                                  m: Monoid<M>, transform: Component -> M)
    ensures Regenerate(cs, depth, true, maxCubes, m, transform).Iterated? ==>
              |Regenerate(cs, depth, true, maxCubes, m, transform).instances| <= maxCubes
  {
    RegenerateInstances(cs, depth, true, maxCubes, m, transform);
  }
}
