/**
  Plane geometry over the reals: libGDX's `Vector2` and `Rectangle`, and
  `java.awt.geom.AffineTransform` as its six coefficients.
  Single-precision rounding is not modelled.
*/
module Geometry {

  datatype Vec = Vec(x: real, y: real)

  function Add(a: Vec, b: Vec): Vec {
    Vec(a.x + b.x, a.y + b.y)
  }

  function Sub(a: Vec, b: Vec): Vec {
    Vec(a.x - b.x, a.y - b.y)
  }

  function Scaled(k: real, a: Vec): Vec {
    Vec(k * a.x, k * a.y)
  }

  function Abs(r: real): real {
    if r < 0.0 then -r else r
  }

  /** Squared Euclidean distance; `dst(a, b) < d` for d >= 0 is `DistSq(a, b) < d * d`. */
  function DistSq(a: Vec, b: Vec): real {
    (a.x - b.x) * (a.x - b.x) + (a.y - b.y) * (a.y - b.y)
  }

  /** `Vector2.lerp`: moves `a` by `alpha` of the way towards `b`. */
  function Lerp(a: Vec, b: Vec, alpha: real): Vec {
    Vec(a.x + alpha * (b.x - a.x), a.y + alpha * (b.y - a.y))
  }

  /** libGDX `Rectangle`: lower-left corner and extent. */
  datatype Rect = Rect(x: real, y: real, width: real, height: real)

  /** `Rectangle.getCenter`. */
  function Center(r: Rect): Vec {
    Vec(r.x + r.width / 2.0, r.y + r.height / 2.0)
  }

  /** `Rectangle.contains(Vector2)`: all four edges are inclusive. */
  predicate Contains(r: Rect, p: Vec) {
    r.x <= p.x && r.x + r.width >= p.x && r.y <= p.y && r.y + r.height >= p.y
  }

  /**
    An affine map with the coefficient names of `AffineTransform`:
    x' = m00 * x + m01 * y + m02 and y' = m10 * x + m11 * y + m12.
  */
  datatype Affine = Affine(m00: real, m10: real, m01: real, m11: real, m02: real, m12: real)

  const Identity: Affine := Affine(1.0, 0.0, 0.0, 1.0, 0.0, 0.0)

  /** `AffineTransform.transform` on one point. */
  function Apply(t: Affine, p: Vec): Vec {
    Vec(t.m00 * p.x + t.m01 * p.y + t.m02, t.m10 * p.x + t.m11 * p.y + t.m12)
  }

  /** `AffineTransform.deltaTransform`: the linear part only, translation ignored. */
  function DeltaApply(t: Affine, p: Vec): Vec {
    Vec(t.m00 * p.x + t.m01 * p.y, t.m10 * p.x + t.m11 * p.y)
  }

  /** The matrix product t * u: the map that applies u first and then t. */
  function Product(t: Affine, u: Affine): Affine {
    Affine(
      t.m00 * u.m00 + t.m01 * u.m10,
      t.m10 * u.m00 + t.m11 * u.m10,
      t.m00 * u.m01 + t.m01 * u.m11,
      t.m10 * u.m01 + t.m11 * u.m11,
      t.m00 * u.m02 + t.m01 * u.m12 + t.m02,
      t.m10 * u.m02 + t.m11 * u.m12 + t.m12)
  }

  /** `t.concatenate(u)`: u is applied first, then t. */
  function Concatenate(t: Affine, u: Affine): Affine {
    Product(t, u)
  }

  /** `t.preConcatenate(u)`: t is applied first, then u. */
  function PreConcatenate(t: Affine, u: Affine): Affine {
    Product(u, t)
  }

  function Translation(tx: real, ty: real): Affine {
    Affine(1.0, 0.0, 0.0, 1.0, tx, ty)
  }

  function Scaling(sx: real, sy: real): Affine {
    Affine(sx, 0.0, 0.0, sy, 0.0, 0.0)
  }

  /** `t.translate(tx, ty)`. */
  function Translate(t: Affine, tx: real, ty: real): Affine {
    Concatenate(t, Translation(tx, ty))
  }

  /** `t.scale(sx, sy)`. */
  function Scale(t: Affine, sx: real, sy: real): Affine {
    Concatenate(t, Scaling(sx, sy))
  }

  /** Ring identities the solver does not find on its own for products of three reals. */
  lemma MulDistrib3(a: real, c1: real, c2: real, c3: real, x: real, y: real)
    ensures a * (c1 * x + c2 * y + c3) == (a * c1) * x + (a * c2) * y + a * c3
  {
  }

  lemma Distrib(k: real, a: real, b: real)
    ensures k * a + k * b == k * (a + b)
  {
  }

  lemma Factor(k1: real, k2: real, x: real)
    ensures k1 * x + k2 * x == (k1 + k2) * x
  {
  }

  /** One row of `Apply(Product(t, u), p)`: a row (a, b, c) of t against the rows of u. */
  lemma RowOfProduct(a: real, b: real, c: real, u: Affine, p: Vec)
    ensures a * (u.m00 * p.x + u.m01 * p.y + u.m02) + b * (u.m10 * p.x + u.m11 * p.y + u.m12) + c
         == (a * u.m00 + b * u.m10) * p.x + (a * u.m01 + b * u.m11) * p.y + (a * u.m02 + b * u.m12 + c)
  {
    MulDistrib3(a, u.m00, u.m01, u.m02, p.x, p.y);
    MulDistrib3(b, u.m10, u.m11, u.m12, p.x, p.y);
    Factor(a * u.m00, b * u.m10, p.x);
    Factor(a * u.m01, b * u.m11, p.y);
  }

  /** Applying a product is applying its factors right to left. */
  lemma ApplyProduct(t: Affine, u: Affine, p: Vec)
    ensures Apply(Product(t, u), p) == Apply(t, Apply(u, p))
  {
    RowOfProduct(t.m00, t.m01, t.m02, u, p);
    RowOfProduct(t.m10, t.m11, t.m12, u, p);
    var l := Apply(Product(t, u), p);
    var r := Apply(t, Apply(u, p));
    assert l.x == r.x;
    assert l.y == r.y;
  }

  /** What `preConcatenate` promises: the receiver acts first, the argument second. */
  lemma ApplyPreConcatenate(t: Affine, u: Affine, p: Vec)
    ensures Apply(PreConcatenate(t, u), p) == Apply(u, Apply(t, p))
  {
    ApplyProduct(u, t, p);
  }

  lemma IdentityNeutral(t: Affine)
    ensures Product(Identity, t) == t && Product(t, Identity) == t
  {
  }

  /** One row of an affine map summed over two points whose coordinates add up to `sx` and `sy`. */
  lemma RowPairSum(k1: real, k2: real, k3: real, p: Vec, q: Vec, sx: real, sy: real)
    requires sx == p.x + q.x && sy == p.y + q.y
    ensures (k1 * p.x + k2 * p.y + k3) + (k1 * q.x + k2 * q.y + k3) == k1 * sx + k2 * sy + 2.0 * k3
  {
    Distrib(k1, p.x, q.x);
    Distrib(k2, p.y, q.y);
  }

  /** The image of two points, summed, depends only on the sum of the points. */
  lemma ApplyPairRows(t: Affine, p: Vec, q: Vec, sx: real, sy: real)
    requires sx == p.x + q.x && sy == p.y + q.y
    ensures Apply(t, p).x + Apply(t, q).x == t.m00 * sx + t.m01 * sy + 2.0 * t.m02
    ensures Apply(t, p).y + Apply(t, q).y == t.m10 * sx + t.m11 * sy + 2.0 * t.m12
  {
    RowPairSum(t.m00, t.m01, t.m02, p, q, sx, sy);
    RowPairSum(t.m10, t.m11, t.m12, p, q, sx, sy);
  }

  /** Affine maps preserve sums of pairs of points (the translation counts twice on each side). */
  lemma ApplyPairSum(t: Affine, a: Vec, b: Vec, c: Vec, d: Vec)
    requires Add(a, b) == Add(c, d)
    ensures Add(Apply(t, a), Apply(t, b)) == Add(Apply(t, c), Apply(t, d))
  {
    var s := Add(a, b);
    assert s.x == c.x + d.x && s.y == c.y + d.y;
    ApplyPairRows(t, a, b, s.x, s.y);
    ApplyPairRows(t, c, d, s.x, s.y);
  }

  /** Affine maps commute with taking the midpoint. */
  lemma ApplyMidpoint(t: Affine, a: Vec, b: Vec)
    ensures Lerp(Apply(t, a), Apply(t, b), 0.5) == Apply(t, Lerp(a, b, 0.5))
  {
  }
}
