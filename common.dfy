/** Values shared by the scene components: optional JSON numbers, 3-vectors,
    JavaScript truthiness and the trigonometry the animation depends on. */
module Common {

  /** A catalog field that may be JSON `null` (None). */
  datatype Option<+T> = None | Some(value: T)

  datatype Vec3 = Vec3(x: real, y: real, z: real) {
    function Plus(o: Vec3): Vec3 {
      Vec3(x + o.x, y + o.y, z + o.z)
    }
    function Scale(k: real): Vec3 {
      Vec3(x * k, y * k, z * k)
    }
    function NormSquared(): real {
      x * x + y * y + z * z
    }
  }

  /** `v || d` in JavaScript keeps `v` only when it is truthy: a number other
      than 0. `null` and `0` both fall back to `d`. */
  predicate Truthy(v: Option<real>) {
    v.Some? && v.value != 0.0
  }

  /** `v || d` for a numeric field. */
  function OrDefault(v: Option<real>, d: real): (r: real)
    ensures Truthy(v) ==> r == v.value && r != 0.0
    ensures !Truthy(v) ==> r == d
  {
    if Truthy(v) then v.value else d
  }

  /** `isFinite(v) && v > 0`. Every number a JSON payload can carry is finite,
      and `isFinite(null)` is true but `null > 0` is false, so the test holds
      exactly for a present positive value. */
  predicate FinitePositive(v: Option<real>) {
    v.Some? && v.value > 0.0
  }

  /** The platform's `Math.PI`, `Math.sin` and `Math.cos`, left uninterpreted. */
  datatype Trig = Trig(pi: real, sin: real -> real, cos: real -> real) {
    /** The only facts about sine and cosine the zero-angle lemmas rely on. */
    predicate AnchoredAtZero() {
      sin(0.0) == 0.0 && cos(0.0) == 1.0
    }
    /** sin² + cos² = 1 at every angle; used by the distance lemmas. */
    ghost predicate Pythagorean() {
      forall a :: sin(a) * sin(a) + cos(a) * cos(a) == 1.0
    }
    /** Degrees to radians, `degrees * Math.PI / 180`. */
    function Radians(degrees: real): (radians: real)
      ensures degrees == 0.0 ==> radians == 0.0
    {
      degrees * pi / 180.0
    }
  }

  /** Spherical coordinates of radius `r`, with `(c, s)` and `(u, v)` two
      points on the unit circle: the point `(r c, r s u, r s v)` lies at
      squared distance `r²` from the origin. Both the orbit and the camera
      transform are of this form. */
  lemma {:induction false} SphericalLength(r: real, c: real, s: real, u: real, v: real, x: real, y: real, z: real)
    requires c * c + s * s == 1.0
    requires u * u + v * v == 1.0
    requires x == r * c && y == r * s * u && z == r * s * v
    ensures x * x + y * y + z * z == r * r
  {
    var rr, cc, ss := r * r, c * c, s * s;
    assert x * x == rr * cc;
    assert y * y == rr * ss * (u * u);
    assert z * z == rr * ss * (v * v);
    calc {
      rr * cc + rr * ss * (u * u) + rr * ss * (v * v);
      rr * cc + rr * ss * (u * u + v * v);
      rr * (cc + ss);
      rr;
    }
  }
}
