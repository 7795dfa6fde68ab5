/** Two- and three-component vectors and the geometry the viewer applies to
    its vertices: rotation about each axis, uniform scaling, perspective
    projection and rounding to screen cells.

    The source computes in `f32`; here the components are exact `real`s, and
    the sine and cosine of an angle are not computed but supplied as a
    `SinCos` pair, so every fact below holds whatever trigonometry produced
    that pair. */
module Vec {

  /** A pair of components (`Vector2<T>`): screen points and edges. */
  datatype Vector2<T> = Vector2(x: T, y: T)

  /** A triple of components (`Vector3<T>`): model-space vertices. */
  datatype Vector3<T> = Vector3(x: T, y: T, z: T)

  /** A vertex in model space. */
  type Point3 = Vector3<real>

  /** `(a, b).into()`: a tuple becomes a vector, components in order. */
  function FromPair<T>(t: (T, T)): Vector2<T> {
    Vector2(t.0, t.1)
  }

  function ToPair<T>(v: Vector2<T>): (T, T) {
    (v.x, v.y)
  }

  /** `(a, b, c).into()`: a tuple becomes a vertex, components in order. */
  function FromTriple<T>(t: (T, T, T)): Vector3<T> {
    Vector3(t.0, t.1, t.2)
  }

  function ToTriple<T>(v: Vector3<T>): (T, T, T) {
    (v.x, v.y, v.z)
  }

  /** The tuple conversions lose nothing and reorder nothing. */
  lemma TupleRoundTrip<T>(p: (T, T), v: Vector2<T>, t: (T, T, T), w: Vector3<T>)
    ensures ToPair(FromPair(p)) == p && FromPair(ToPair(v)) == v
    ensures FromPair(p).x == p.0 && FromPair(p).y == p.1
    ensures ToTriple(FromTriple(t)) == t && FromTriple(ToTriple(w)) == w
    ensures FromTriple(t).x == t.0 && FromTriple(t).y == t.1 && FromTriple(t).z == t.2
  {
  }

  // ---------------------------------------------------------------------
  // Rotation

  /** The result of `angle.sin_cos()`, supplied from outside the model. */
  datatype SinCos = SinCos(sin: real, cos: real)

  /** What every genuine `sin_cos` result satisfies. */
  predicate OnUnitCircle(t: SinCos) {
    t.sin * t.sin + t.cos * t.cos == 1.0
  }

  /** `sin_cos(-a)` in terms of `sin_cos(a)`: sine is odd, cosine even. */
  function Opposite(t: SinCos): (o: SinCos)
    ensures OnUnitCircle(o) <==> OnUnitCircle(t)
    ensures o.cos == t.cos && o.sin + t.sin == 0.0
  {
    SinCos(-t.sin, t.cos)
  }

  /** The two-dimensional rotation formula every axis rotation applies to the
      two coordinates it moves. */
  function RotatePlane(a: real, b: real, t: SinCos): (real, real) {
    (t.cos * a - t.sin * b, t.sin * a + t.cos * b)
  }

  /** `rotate_x`: rotation in the y-z plane. */
  function RotateX(v: Point3, t: SinCos): (r: Point3)
    ensures r.x == v.x
  {
    var (y, z) := RotatePlane(v.y, v.z, t);
    Vector3(v.x, y, z)
  }

  /** `rotate_y`: rotation in the x-z plane. */
  function RotateY(v: Point3, t: SinCos): (r: Point3)
    ensures r.y == v.y
  {
    var (x, z) := RotatePlane(v.x, v.z, t);
    Vector3(x, v.y, z)
  }

  /** `rotate_z`: rotation in the x-y plane. */
  function RotateZ(v: Point3, t: SinCos): (r: Point3)
    ensures r.z == v.z
  {
    var (x, y) := RotatePlane(v.x, v.y, t);
    Vector3(x, y, v.z)
  }

  /** The algebra behind `PlaneInverse`. */
  lemma InverseAlgebra(c: real, s: real, a: real, b: real)
    requires c * c + s * s == 1.0
    ensures c * (c * a - s * b) - (-s) * (s * a + c * b) == a
    ensures (-s) * (c * a - s * b) + c * (s * a + c * b) == b
  {
    assert c * (c * a - s * b) == (c * c) * a - (c * s) * b;
    assert (-s) * (s * a + c * b) == -((s * s) * a) - (s * c) * b;
    assert (c * c) * a + (s * s) * a == (c * c + s * s) * a;
    assert (-s) * (c * a - s * b) == -((s * c) * a) + (s * s) * b;
    assert c * (s * a + c * b) == (c * s) * a + (c * c) * b;
    assert (s * s) * b + (c * c) * b == (c * c + s * s) * b;
  }

  /** Rotating a plane point by (sin, cos) and back by (-sin, cos) restores it
      when the pair lies on the unit circle. */
  lemma PlaneInverse(a: real, b: real, t: SinCos)
    requires OnUnitCircle(t)
    ensures RotatePlane(RotatePlane(a, b, t).0, RotatePlane(a, b, t).1, Opposite(t)) == (a, b)
  {
    InverseAlgebra(t.cos, t.sin, a, b);
    var p := RotatePlane(a, b, t);
    var o := Opposite(t);
    assert o == SinCos(-t.sin, t.cos);
    var q := RotatePlane(p.0, p.1, o);
    assert q.0 == t.cos * (t.cos * a - t.sin * b) - (-t.sin) * (t.sin * a + t.cos * b);
    assert q.1 == (-t.sin) * (t.cos * a - t.sin * b) + t.cos * (t.sin * a + t.cos * b);
    assert q.0 == a && q.1 == b;
  }

  /** The algebra behind `PlaneNorm`. */
  lemma NormAlgebra(c: real, s: real, a: real, b: real)
    requires c * c + s * s == 1.0
    ensures (c * a - s * b) * (c * a - s * b) + (s * a + c * b) * (s * a + c * b) == a * a + b * b
  {
    assert (c * a - s * b) * (c * a - s * b) == (c * c) * (a * a) - 2.0 * (c * s) * (a * b) + (s * s) * (b * b);
    assert (s * a + c * b) * (s * a + c * b) == (s * s) * (a * a) + 2.0 * (c * s) * (a * b) + (c * c) * (b * b);
    assert (c * c) * (a * a) + (s * s) * (a * a) == (c * c + s * s) * (a * a);
    assert (s * s) * (b * b) + (c * c) * (b * b) == (c * c + s * s) * (b * b);
  }

  /** Rotating a plane point keeps its squared distance from the axis. */
  lemma PlaneNorm(a: real, b: real, t: SinCos)
    requires OnUnitCircle(t)
    ensures RotatePlane(a, b, t).0 * RotatePlane(a, b, t).0
          + RotatePlane(a, b, t).1 * RotatePlane(a, b, t).1 == a * a + b * b
  {
    NormAlgebra(t.cos, t.sin, a, b);
    var p := RotatePlane(a, b, t);
    assert p.0 == t.cos * a - t.sin * b && p.1 == t.sin * a + t.cos * b;
    assert p.0 * p.0 + p.1 * p.1 == a * a + b * b;
  }

  /** Rotating by an angle and then by its negation is the identity, about
      every axis. */
  lemma RotateInverse(v: Point3, t: SinCos)
    requires OnUnitCircle(t)
    ensures RotateX(RotateX(v, t), Opposite(t)) == v
    ensures RotateY(RotateY(v, t), Opposite(t)) == v
    ensures RotateZ(RotateZ(v, t), Opposite(t)) == v
  {
    PlaneInverse(v.y, v.z, t);
    PlaneInverse(v.x, v.z, t);
    PlaneInverse(v.x, v.y, t);
  }

  /** The squared length of a vertex. */
  function NormSquared(v: Point3): real {
    v.x * v.x + v.y * v.y + v.z * v.z
  }

  lemma RotateXNorm(v: Point3, t: SinCos)
    requires OnUnitCircle(t)
    ensures NormSquared(RotateX(v, t)) == NormSquared(v)
  {
    var r := RotateX(v, t);
    PlaneNorm(v.y, v.z, t);
    assert r.y * r.y + r.z * r.z == v.y * v.y + v.z * v.z;
  }

  lemma RotateYNorm(v: Point3, t: SinCos)
    requires OnUnitCircle(t)
    ensures NormSquared(RotateY(v, t)) == NormSquared(v)
  {
    var r := RotateY(v, t);
    PlaneNorm(v.x, v.z, t);
    assert r.x * r.x + r.z * r.z == v.x * v.x + v.z * v.z;
  }

  lemma RotateZNorm(v: Point3, t: SinCos)
    requires OnUnitCircle(t)
    ensures NormSquared(RotateZ(v, t)) == NormSquared(v)
  {
    var r := RotateZ(v, t);
    PlaneNorm(v.x, v.y, t);
    assert r.x * r.x + r.y * r.y == v.x * v.x + v.y * v.y;
  }

  /** Each rotation keeps a vertex's distance from the origin. */
  lemma RotatePreservesNorm(v: Point3, t: SinCos)
    requires OnUnitCircle(t)
    ensures NormSquared(RotateX(v, t)) == NormSquared(v)
    ensures NormSquared(RotateY(v, t)) == NormSquared(v)
    ensures NormSquared(RotateZ(v, t)) == NormSquared(v)
  {
    RotateXNorm(v, t);
    RotateYNorm(v, t);
    RotateZNorm(v, t);
  }

  // ---------------------------------------------------------------------
  // Scaling

  /** `scale`: every component multiplied by the same factor. */
  function Scale(v: Point3, s: real): Point3 {
    Vector3(v.x * s, v.y * s, v.z * s)
  }

  /** Scaling by 1 is the identity and scaling by 0 collapses a vertex to
      the origin. */
  lemma ScaleUnitAndZero(v: Point3)
    ensures Scale(v, 1.0) == v
    ensures Scale(v, 0.0) == Vector3(0.0, 0.0, 0.0)
  {
  }

  /** Scaling twice is scaling once by the product of the factors. */
  lemma ScaleCompose(v: Point3, a: real, b: real)
    ensures Scale(Scale(v, a), b) == Scale(v, a * b)
  {
    var l, r := Scale(Scale(v, a), b), Scale(v, a * b);
    assert l.x == (v.x * a) * b == v.x * (a * b) == r.x;
    assert l.y == (v.y * a) * b == v.y * (a * b) == r.y;
    assert l.z == (v.z * a) * b == v.z * (a * b) == r.z;
  }

  /** Scaling by `a` multiplies the squared length by `a * a`. */
  lemma ScaleNorm(v: Point3, a: real)
    ensures NormSquared(Scale(v, a)) == a * a * NormSquared(v)
  {
    calc {
      NormSquared(Scale(v, a));
      (v.x * a) * (v.x * a) + (v.y * a) * (v.y * a) + (v.z * a) * (v.z * a);
      a * a * (v.x * v.x) + a * a * (v.y * v.y) + a * a * (v.z * v.z);
      a * a * NormSquared(v);
    }
  }

  /** A non-zero scale is undone by its reciprocal. */
  lemma ScaleInverse(v: Point3, s: real)
    requires s != 0.0
    ensures Scale(Scale(v, s), 1.0 / s) == v
  {
    var inv := 1.0 / s;
    ScaleCompose(v, s, inv);
    assert s * inv == 1.0;
    ScaleUnitAndZero(v);
    assert Scale(Scale(v, s), inv) == Scale(v, s * inv) == Scale(v, 1.0) == v;
  }

  // ---------------------------------------------------------------------
  // Projection and rounding

  /** The divisor `projected` uses: `z + fov`, replaced by 0.001 when that is
      exactly zero. */
  function ProjectionDivisor(v: Point3, fov: real): (d: real)
    ensures d != 0.0
    ensures v.z + fov != 0.0 ==> d == v.z + fov
  {
    if v.z + fov == 0.0 then 0.001 else v.z + fov
  }

  /** `projected`: perspective projection onto the view plane. */
  function Projected(v: Point3, fov: real): (p: Vector2<real>)
    ensures p.x * ProjectionDivisor(v, fov) == v.x * fov
    ensures p.y * ProjectionDivisor(v, fov) == v.y * fov
    ensures v.z + fov == 0.0 ==> p == Vector2(1000.0 * v.x * fov, 1000.0 * v.y * fov)
  {
    var d := ProjectionDivisor(v, fov);
    assert d == 0.001 ==> (v.x * fov) / d == 1000.0 * v.x * fov && (v.y * fov) / d == 1000.0 * v.y * fov;
    Vector2((v.x * fov) / d, (v.y * fov) / d)
  }

  /** `f32::round`: to the nearest integer, halfway cases away from zero. */
  function Round(a: real): (r: int)
    ensures a - 0.5 <= r as real <= a + 0.5
    ensures a >= 0.0 ==> a - 0.5 < r as real
    ensures a < 0.0 ==> r as real < a + 0.5
  {
    if a >= 0.0 then (a + 0.5).Floor else -((0.5 - a).Floor)
  }

  /** Integers round to themselves, and inputs less than one apart round to
      integers at most one apart. */
  lemma RoundFacts(n: int, a: real, b: real)
    ensures Round(n as real) == n
    ensures -1.0 < a - b < 1.0 ==> -1 <= Round(a) - Round(b) <= 1
    ensures a <= b ==> Round(a) <= Round(b)
  {
  }

  /** An input strictly within one half of an integer rounds to it. */
  lemma RoundNearest(n: int, a: real)
    requires n as real - 0.5 < a < n as real + 0.5
    ensures Round(a) == n
  {
  }

  /** `Vector2<f32>::round`: both components rounded. */
  function RoundVec(p: Vector2<real>): Vector2<int> {
    Vector2(Round(p.x), Round(p.y))
  }
}
