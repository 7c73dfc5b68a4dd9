/** How a planet is drawn and animated: its visual radius, color and, every
    frame, its position on an inclined orbit around its star
    (hwo-frontend/src/Components/Exoplanet.js). */
module Exoplanet {
  import opened Common
  import opened Catalog

  /** The orbit is drawn 97 units further along z than the star position it
      is given. */
  const PlanetZOffset: real := 97.0
  /** The planet component's own scale factor ("sunSize"). */
  const SunSize: real := 1.0
  const OrbitScale: real := 1.0
  /** Radius used whenever no size can be derived. */
  const DefaultPlanetSize: real := 0.05
  /** Earth radii per solar radius, as the component approximates it. */
  const EarthRadiiPerSunRadius: real := 109.0
  /** Period used when the catalog has none, in the same units as the clock. */
  const DefaultPeriod: real := 365.0
  /** The angle is divided by this to speed the animation up. */
  const SpeedDivisor: real := 0.5

  /** `orbitRadius`: the semi-major axis when truthy, otherwise 1, so a
      missing axis and an axis of 0 both give a unit orbit. */
  function OrbitRadius(semiMajorAxis: Option<real>): (r: real)
    ensures Truthy(semiMajorAxis) ==> r == semiMajorAxis.value && r != 0.0
    ensures !Truthy(semiMajorAxis) ==> r == 1.0
  {
    OrDefault(semiMajorAxis, 1.0) * OrbitScale
  }

  /** The size chain before the validity guard: the radius ratio times the
      star size (when the ratio is a positive number), else the Earth radius
      over 109 (when that is a positive number), else the default. */
  function ChainedSize(radiusRatio: Option<real>, earthRadii: Option<real>, starSize: Option<real>): (size: real)
    ensures size > 0.0
  {
    if FinitePositive(radiusRatio) then
      var scaledStarSize := if FinitePositive(starSize) then starSize.value * SunSize else SunSize;
      radiusRatio.value * scaledStarSize
    else if FinitePositive(earthRadii) then
      (earthRadii.value / EarthRadiiPerSunRadius) * SunSize
    else
      DefaultPlanetSize
  }

  /** The final guard: a size that is not a positive number becomes the
      default. Every real is finite, so only the sign is tested. */
  function GuardSize(size: real): (r: real)
    ensures r > 0.0
    ensures size > 0.0 ==> r == size
  {
    if size > 0.0 then size else DefaultPlanetSize
  }

  /** `planetSize`. */
  function PlanetSize(radiusRatio: Option<real>, earthRadii: Option<real>, starSize: Option<real>): (size: real)
    ensures size > 0.0
    ensures FinitePositive(radiusRatio) && FinitePositive(starSize) ==> size == radiusRatio.value * starSize.value
    ensures FinitePositive(radiusRatio) && !FinitePositive(starSize) ==> size == radiusRatio.value
    ensures !FinitePositive(radiusRatio) && FinitePositive(earthRadii) ==> size == earthRadii.value / 109.0
    ensures !FinitePositive(radiusRatio) && !FinitePositive(earthRadii) ==> size == DefaultPlanetSize
  {
    GuardSize(ChainedSize(radiusRatio, earthRadii, starSize))
  }

  /** Every branch of the chain already yields a positive size, so with exact
      arithmetic the guard never replaces a value. */
  lemma GuardKeepsChainedSize(radiusRatio: Option<real>, earthRadii: Option<real>, starSize: Option<real>)
    ensures ChainedSize(radiusRatio, earthRadii, starSize) > 0.0
    ensures PlanetSize(radiusRatio, earthRadii, starSize) == ChainedSize(radiusRatio, earthRadii, starSize)
  {
  }

  /** With a usable radius ratio the Earth radius is ignored. */
  lemma RatioOverridesEarthRadii(radiusRatio: Option<real>, e1: Option<real>, e2: Option<real>, starSize: Option<real>)
    requires FinitePositive(radiusRatio)
    ensures PlanetSize(radiusRatio, e1, starSize) == PlanetSize(radiusRatio, e2, starSize)
  {
  }

  /** `planetColor`: orange for gas giants, blue for every other type. */
  function PlanetColor(planetType: Option<string>): (color: string)
    ensures color == "orange" <==> planetType == Some("Gas Giants")
    ensures color == "orange" || color == "blue"
  {
    if planetType == Some("Gas Giants") then "orange" else "blue"
  }

  /** `pl_orbper || 365`: never 0, so the angle is always defined. */
  function OrbitPeriod(period: Option<real>): (p: real)
    ensures p != 0.0
    ensures Truthy(period) ==> p == period.value
    ensures !Truthy(period) ==> p == DefaultPeriod
  {
    OrDefault(period, DefaultPeriod)
  }

  /** The orbital angle after `time` seconds: 0 at the start. */
  function OrbitAngle(time: real, period: Option<real>, trig: Trig): (angle: real)
    ensures time == 0.0 ==> angle == 0.0
  {
    ((time / OrbitPeriod(period)) * trig.pi * 2.0) / SpeedDivisor
  }

  /** Dividing by the speed divisor of 0.5 doubles the speed: the planet
      completes a full turn (2π) every half period. */
  lemma OrbitAngleFullTurn(time: real, period: Option<real>, trig: Trig)
    ensures OrbitAngle(time + OrbitPeriod(period) * SpeedDivisor, period, trig)
         == OrbitAngle(time, period, trig) + 2.0 * trig.pi
  {
    var p := OrbitPeriod(period);
    assert (time + p * SpeedDivisor) / p == time / p + SpeedDivisor;
  }

  /** The inclination in radians. `isFinite(null)` is true and `null` is 0 in
      arithmetic, so a missing inclination gives 0. */
  function InclinationRadians(inclination: Option<real>, trig: Trig): (rad: real)
    ensures inclination.None? ==> rad == 0.0
  {
    trig.Radians(if inclination.Some? then inclination.value else 0.0)
  }

  /** The planet's offset from the orbit centre: a circle of radius
      `orbitRadius` in the x-z plane, tilted about the x axis by the
      inclination. It starts on the x axis, and without inclination it stays
      in the x-z plane. */
  function OrbitOffset(planet: CatalogRow, time: real, trig: Trig): (offset: Vec3)
    ensures trig.AnchoredAtZero() && time == 0.0 ==> offset == Vec3(OrbitRadius(planet.semiMajorAxis), 0.0, 0.0)
    ensures trig.AnchoredAtZero() && (planet.inclination.None? || planet.inclination == Some(0.0)) ==> offset.y == 0.0
  {
    var r := OrbitRadius(planet.semiMajorAxis);
    var angle := OrbitAngle(time, planet.period, trig);
    var inclination := InclinationRadians(planet.inclination, trig);
    Vec3(r * trig.cos(angle),
         r * trig.sin(angle) * trig.sin(inclination),
         r * trig.sin(angle) * trig.cos(inclination))
  }

  /** Where the frame callback puts the planet: star position plus orbital
      offset plus the z offset. At time 0 it is one orbit radius along x from
      the orbit centre, and with no inclination it keeps the star's height. */
  function PlanetPosition(planet: CatalogRow, starPosition: Vec3, time: real, trig: Trig): (p: Vec3)
    ensures trig.AnchoredAtZero() && time == 0.0 ==>
              p == Vec3(starPosition.x + OrbitRadius(planet.semiMajorAxis), starPosition.y, starPosition.z + PlanetZOffset)
    ensures trig.AnchoredAtZero() && (planet.inclination.None? || planet.inclination == Some(0.0)) ==>
              p.y == starPosition.y
  {
    starPosition.Plus(OrbitOffset(planet, time, trig)).Plus(Vec3(0.0, 0.0, PlanetZOffset))
  }

  /** Whatever the time and inclination, the planet stays at the orbit radius
      from the orbit centre. */
  lemma {:induction false} OrbitIsCircle(planet: CatalogRow, time: real, trig: Trig)
    requires trig.Pythagorean()
    ensures OrbitOffset(planet, time, trig).NormSquared()
         == OrbitRadius(planet.semiMajorAxis) * OrbitRadius(planet.semiMajorAxis)
  {
    TiltedCircle(OrbitRadius(planet.semiMajorAxis), OrbitAngle(time, planet.period, trig),
                 InclinationRadians(planet.inclination, trig), trig);
  }

  /** A circle of radius `r` tilted by `tilt`: the point at `angle` lies at
      squared distance `r²` from the centre. */
  lemma {:induction false} TiltedCircle(r: real, angle: real, tilt: real, trig: Trig)
    requires trig.Pythagorean()
    ensures Vec3(r * trig.cos(angle), r * trig.sin(angle) * trig.sin(tilt), r * trig.sin(angle) * trig.cos(tilt)).NormSquared()
         == r * r
  {
    var s, c, si, ci := trig.sin(angle), trig.cos(angle), trig.sin(tilt), trig.cos(tilt);
    assert c * c + s * s == 1.0;
    assert si * si + ci * ci == 1.0;
    SphericalLength(r, c, s, si, ci, r * c, r * s * si, r * s * ci);
  }

  /** The mesh whose position the frame callback writes. */
  class PlanetMesh {
    var x: real
    var y: real
    var z: real

    constructor ()
      ensures x == 0.0 && y == 0.0 && z == 0.0
    {
      x, y, z := 0.0, 0.0, 0.0;
    }

    /** The `useFrame` callback: reads the clock and writes the three
        coordinates of the mesh position in place. */
    method OnFrame(planet: CatalogRow, starPosition: Vec3, time: real, trig: Trig)
      modifies this
      ensures Vec3(x, y, z) == PlanetPosition(planet, starPosition, time, trig)
    {
      var orbitRadius := OrbitRadius(planet.semiMajorAxis);
      var angle := OrbitAngle(time, planet.period, trig);
      var inclination := InclinationRadians(planet.inclination, trig);
      var dx := orbitRadius * trig.cos(angle);
      var dz := orbitRadius * trig.sin(angle) * trig.cos(inclination);
      var dy := orbitRadius * trig.sin(angle) * trig.sin(inclination);
      x := starPosition.x + dx;
      z := starPosition.z + dz + PlanetZOffset;
      y := starPosition.y + dy;
    }
  }
}
