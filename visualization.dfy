/** The visualization component: the camera controller driven by the zoom
    slider, the reset and zoom-out buttons and mouse drags, and the scene it
    builds from the grouped catalog
    (hwo-frontend/src/Components/ExoplanetVisualization.js). */
module Visualization {
  import opened Common
  import opened Catalog
  import HostStar
  import Exoplanet

  const MinZoom: real := 0.0
  const MaxZoom: real := 3000.0
  /** Zoom at start-up and after reset. */
  const DefaultZoom: real := 2900.0
  /** Zoom after the zoom-out button. */
  const ZoomedOutZoom: real := 2200.0
  /** Degrees of rotation per pixel of drag. */
  const DragSensitivity: real := 0.05

  datatype Pointer = Pointer(x: real, y: real)

  /** The three.js camera: where it is and the point it looks at. */
  class PerspectiveCamera {
    var position: Vec3
    var target: Vec3

    /** The canvas creates the camera on the z axis at the initial distance. */
    constructor (zoom: real)
      ensures position == Vec3(0.0, 0.0, MaxZoom - zoom) && target == Vec3(0.0, 0.0, 0.0)
    {
      position := Vec3(0.0, 0.0, MaxZoom - zoom);
      target := Vec3(0.0, 0.0, 0.0);
    }
  }

  /** Camera position for a zoom and the two rotation accumulators (degrees):
      a point at distance `MaxZoom - zoom` from the origin, at elevation
      `rotateX` and azimuth `rotateY`. Without rotation it is where the canvas
      first places the camera, and without elevation it stays level with the
      origin. */
  function CameraPosition(zoom: real, rotateX: real, rotateY: real, trig: Trig): (c: Vec3)
    ensures trig.AnchoredAtZero() && rotateX == 0.0 ==> c.y == 0.0
    ensures trig.AnchoredAtZero() && rotateX == 0.0 && rotateY == 0.0 ==> c == Vec3(0.0, 0.0, MaxZoom - zoom)
  {
    var theta := trig.Radians(rotateX);
    var phi := trig.Radians(rotateY);
    var distance := MaxZoom - zoom;
    Vec3(distance * trig.cos(theta) * trig.sin(phi),
         distance * trig.sin(theta),
         distance * trig.cos(theta) * trig.cos(phi))
  }

  /** Rotation moves the camera on a sphere: its distance from the origin is
      `MaxZoom - zoom` whatever the angles. */
  lemma {:induction false} CameraOnSphere(zoom: real, rotateX: real, rotateY: real, trig: Trig)
    requires trig.Pythagorean()
    ensures CameraPosition(zoom, rotateX, rotateY, trig).NormSquared() == (MaxZoom - zoom) * (MaxZoom - zoom)
  {
    var d, theta, phi := MaxZoom - zoom, trig.Radians(rotateX), trig.Radians(rotateY);
    SphericalPoint(d, theta, phi, trig);
    assert CameraPosition(zoom, rotateX, rotateY, trig)
        == Vec3(d * trig.cos(theta) * trig.sin(phi), d * trig.sin(theta), d * trig.cos(theta) * trig.cos(phi));
  }

  /** The point at distance `d`, elevation `theta` and azimuth `phi` lies at
      squared distance `d²` from the origin. */
  lemma {:induction false} SphericalPoint(d: real, theta: real, phi: real, trig: Trig)
    requires trig.Pythagorean()
    ensures Vec3(d * trig.cos(theta) * trig.sin(phi), d * trig.sin(theta), d * trig.cos(theta) * trig.cos(phi)).NormSquared()
         == d * d
  {
    var st, ct, sp, cp := trig.sin(theta), trig.cos(theta), trig.sin(phi), trig.cos(phi);
    assert st * st + ct * ct == 1.0;
    assert sp * sp + cp * cp == 1.0;
    SphericalLength(d, st, ct, sp, cp, d * st, d * ct * sp, d * ct * cp);
  }

  /** The controller's state: the zoom slider value, the two rotation
      accumulators, the last pointer position and whether a drag is active. */
  class CameraController {
    var zoom: real
    var rotateX: real
    var rotateY: real
    var lastPointer: Pointer
    var dragging: bool

    /** The slider keeps the zoom between its bounds. */
    ghost predicate Valid()
      reads this
    {
      MinZoom <= zoom <= MaxZoom
    }

    constructor ()
      ensures Valid()
      ensures zoom == DefaultZoom && rotateX == 0.0 && rotateY == 0.0
      ensures lastPointer == Pointer(0.0, 0.0) && !dragging
      ensures Distance() == 100.0
    {
      zoom := DefaultZoom;
      rotateX := 0.0;
      rotateY := 0.0;
      lastPointer := Pointer(0.0, 0.0);
      dragging := false;
    }

    /** `distance` in `updateCamera`: the camera comes closer as the zoom
      value grows. */
    function Distance(): (d: real)
      reads this
      requires Valid()
      ensures 0.0 <= d <= MaxZoom - MinZoom
      ensures d == MaxZoom - zoom
    {
      MaxZoom - zoom
    }

    /** `updateCamera`: moves the camera to the position the current state
        gives and points it at the origin. */
    method UpdateCamera(camera: PerspectiveCamera, trig: Trig)
      modifies camera
      ensures camera.position == CameraPosition(zoom, rotateX, rotateY, trig)
      ensures camera.target == Vec3(0.0, 0.0, 0.0)
    {
      var theta := trig.Radians(rotateX);
      var phi := trig.Radians(rotateY);
      var distance := MaxZoom - zoom;
      var x := distance * trig.cos(theta) * trig.sin(phi);
      var y := distance * trig.sin(theta);
      var z := distance * trig.cos(theta) * trig.cos(phi);
      camera.position := Vec3(x, y, z);
      camera.target := Vec3(0.0, 0.0, 0.0);
    }

    /** `handleZoomChange`: the slider's value becomes the zoom; nothing else
        changes. */
    method ZoomChange(value: real)
      requires MinZoom <= value <= MaxZoom
      modifies this
      ensures Valid()
      ensures zoom == value
      ensures rotateX == old(rotateX) && rotateY == old(rotateY)
      ensures lastPointer == old(lastPointer) && dragging == old(dragging)
    {
      zoom := value;
    }

    /** `handleReset`: default zoom and no rotation, from any state; the drag
        state is kept. Calling it twice leaves the same state as once. */
    method Reset()
      modifies this
      ensures Valid()
      ensures zoom == DefaultZoom && rotateX == 0.0 && rotateY == 0.0
      ensures lastPointer == old(lastPointer) && dragging == old(dragging)
    {
      zoom := DefaultZoom;
      rotateX := 0.0;
      rotateY := 0.0;
    }

    /** `handleZoomOut`: the zoomed-out preset and no rotation; the drag state
        is kept. */
    method ZoomOut()
      modifies this
      ensures Valid()
      ensures zoom == ZoomedOutZoom && rotateX == 0.0 && rotateY == 0.0
      ensures lastPointer == old(lastPointer) && dragging == old(dragging)
    {
      zoom := ZoomedOutZoom;
      rotateX := 0.0;
      rotateY := 0.0;
    }

    /** `handleMouseDown`: a drag starts at the pointer. */
    method MouseDown(p: Pointer)
      modifies this
      ensures dragging && lastPointer == p
      ensures zoom == old(zoom) && rotateX == old(rotateX) && rotateY == old(rotateY)
    {
      dragging := true;
      lastPointer := p;
    }

    /** `handleMouseMove`: ignored unless a drag is active; otherwise the
        horizontal movement turns the azimuth, the vertical movement turns the
        elevation the other way, and the pointer is remembered. */
    method MouseMove(p: Pointer)
      modifies this
      ensures !old(dragging) ==>
                zoom == old(zoom) && rotateX == old(rotateX) && rotateY == old(rotateY)
                && lastPointer == old(lastPointer) && dragging == old(dragging)
      ensures old(dragging) ==>
                && rotateY == old(rotateY) + (p.x - old(lastPointer).x) * DragSensitivity
                && rotateX == old(rotateX) - (p.y - old(lastPointer).y) * DragSensitivity
                && lastPointer == p
                && zoom == old(zoom) && dragging
    {
      if !dragging {
        return;
      }
      var deltaX := p.x - lastPointer.x;
      var deltaY := p.y - lastPointer.y;
      rotateY := rotateY + deltaX * DragSensitivity;
      rotateX := rotateX - deltaY * DragSensitivity;
      lastPointer := p;
    }

    /** `handleMouseUp`: the drag ends. */
    method MouseUp()
      modifies this
      ensures !dragging
      ensures zoom == old(zoom) && rotateX == old(rotateX) && rotateY == old(rotateY)
      ensures lastPointer == old(lastPointer)
    {
      dragging := false;
    }

    /** `handleMouseLeave`: leaving the canvas also ends the drag. */
    method MouseLeave()
      modifies this
      ensures !dragging
      ensures zoom == old(zoom) && rotateX == old(rotateX) && rotateY == old(rotateY)
      ensures lastPointer == old(lastPointer)
    {
      dragging := false;
    }

    /** A drag gesture: mouse down at `start`, then moves through `moves`.
        The per-move deltas telescope, so the total rotation depends only on
        the first and the last pointer positions. */
    method Drag(start: Pointer, moves: seq<Pointer>)
      modifies this
      ensures var last := if moves == [] then start else moves[|moves| - 1];
              && dragging && lastPointer == last
              && rotateY == old(rotateY) + (last.x - start.x) * DragSensitivity
              && rotateX == old(rotateX) - (last.y - start.y) * DragSensitivity
      ensures zoom == old(zoom)
    {
      MouseDown(start);
      var i := 0;
      while i < |moves|
        invariant 0 <= i <= |moves|
        invariant dragging && zoom == old(zoom)
        invariant lastPointer == if i == 0 then start else moves[i - 1]
        invariant rotateY == old(rotateY) + (lastPointer.x - start.x) * DragSensitivity
        invariant rotateX == old(rotateX) - (lastPointer.y - start.y) * DragSensitivity
      {
        MouseMove(moves[i]);
        i := i + 1;
      }
    }
  }

  // ---------------------------------------------------------------------
  // Scene composition

  /** A system is drawn only when its star has all three coordinates: the
      same test the host star component applies before drawing itself. */
  predicate HasPosition(s: StarSystem): (b: bool)
    ensures b <==> HostStar.RenderHostStar(s.starData).Some?
  {
    s.starData.x.Some? && s.starData.y.Some? && s.starData.z.Some?
  }

  /** The `filter` over `Object.values(data)`: the systems with a position,
      in their original order. */
  function VisibleSystems(systems: seq<StarSystem>): (r: seq<StarSystem>)
    ensures |r| <= |systems|
    ensures forall s :: s in r <==> s in systems && HasPosition(s)
    ensures (forall i :: 0 <= i < |systems| ==> HasPosition(systems[i])) ==> r == systems
  {
    if systems == [] then []
    else
      var rest := VisibleSystems(systems[1..]);
      assert systems == [systems[0]] + systems[1..];
      if HasPosition(systems[0]) then [systems[0]] + rest else rest
  }

  /** The filter keeps order: filtering a concatenation filters each part and
      concatenates the results, so a kept system stays ahead of every kept
      system that followed it. */
  lemma {:induction false} VisibleSystemsAppend(a: seq<StarSystem>, b: seq<StarSystem>)
    ensures VisibleSystems(a + b) == VisibleSystems(a) + VisibleSystems(b)
  {
    if a != [] {
      assert (a + b)[1..] == a[1..] + b;
      VisibleSystemsAppend(a[1..], b);
    } else {
      assert a + b == b;
    }
  }

  /** The decimal digits of `n`, as `${n}` writes an index. */
  function NatToString(n: nat): (s: string)
    ensures |s| >= 1
    ensures forall i :: 0 <= i < |s| ==> '0' <= s[i] <= '9'
    ensures n >= 10 ==> |s| >= 2
  {
    if n < 10 then [Digit(n)] else NatToString(n / 10) + [Digit(n % 10)]
  }

  function Digit(d: nat): (c: char)
    requires d < 10
    ensures '0' <= c <= '9'
  {
    (48 + d) as char
  }

  /** Different indices print differently. */
  lemma {:induction false} NatToStringInjective(a: nat, b: nat)
    requires NatToString(a) == NatToString(b)
    ensures a == b
  {
    if a >= 10 && b >= 10 {
      var sa, sb := NatToString(a), NatToString(b);
      assert sa[..|sa| - 1] == NatToString(a / 10);
      assert sb[..|sb| - 1] == NatToString(b / 10);
      NatToStringInjective(a / 10, b / 10);
      assert Digit(a % 10) == sa[|sa| - 1] == sb[|sb| - 1] == Digit(b % 10);
    }
  }

  /** The React key of the planet at `index` of a system: `hostname-index`. */
  function PlanetKey(hostname: string, index: nat): (k: string)
    ensures |k| >= |hostname| + 2 && k[..|hostname|] == hostname && k[|hostname|] == '-'
    ensures forall i :: |hostname| < i < |k| ==> '0' <= k[i] <= '9'
  {
    hostname + "-" + NatToString(index)
  }

  /** Within a system the planet keys are all different. */
  lemma PlanetKeysDistinct(hostname: string, i: nat, j: nat)
    requires i != j
    ensures PlanetKey(hostname, i) != PlanetKey(hostname, j)
  {
    if PlanetKey(hostname, i) == PlanetKey(hostname, j) {
      var n := |hostname| + 1;
      assert PlanetKey(hostname, i)[n..] == NatToString(i);
      assert PlanetKey(hostname, j)[n..] == NatToString(j);
      NatToStringInjective(i, j);
    }
  }

  /** What the scene hands to one `Exoplanet` component. */
  datatype PlanetNode = PlanetNode(key: string, planet: CatalogRow, starPosition: Vec3, starSize: Option<real>)

  /** One drawn system: its `HostStar` and its planets. */
  datatype SystemNode = SystemNode(system: StarSystem, planets: seq<PlanetNode>)

  /** The planets of a positioned system: each keyed `hostname-index`, given
      the star's raw catalog position and its raw radius. */
  function PlanetNodes(s: StarSystem): (ps: seq<PlanetNode>)
    requires HasPosition(s)
    ensures |ps| == |s.exoplanets|
    ensures forall i :: 0 <= i < |ps| ==> ps[i].planet == s.exoplanets[i]
    ensures forall i :: 0 <= i < |ps| ==> ps[i].starPosition == Vec3(s.starData.x.value, s.starData.y.value, s.starData.z.value)
    ensures forall i :: 0 <= i < |ps| ==> ps[i].starSize == s.starData.starRadius
    ensures forall i, j :: 0 <= i < j < |ps| ==> ps[i].key != ps[j].key
  {
    var position := Vec3(s.starData.x.value, s.starData.y.value, s.starData.z.value);
    var ps := seq(|s.exoplanets|, i requires 0 <= i < |s.exoplanets| =>
                  PlanetNode(PlanetKey(s.starData.hostname, i), s.exoplanets[i], position, s.starData.starRadius));
    assert forall i, j :: 0 <= i < j < |ps| ==> ps[i].key != ps[j].key by {
      forall i, j | 0 <= i < j < |ps| ensures ps[i].key != ps[j].key {
        PlanetKeysDistinct(s.starData.hostname, i, j);
      }
    }
    ps
  }

  /** The scene: every system of the grouped catalog that has a position, in
      key order, with its planets. */
  function Scene(data: HostGroups): (scene: seq<SystemNode>)
    requires data.Valid()
    ensures |scene| == |VisibleSystems(data.Values())| <= |data.keys|
    ensures forall i :: 0 <= i < |scene| ==> scene[i].system == VisibleSystems(data.Values())[i]
    ensures forall i :: 0 <= i < |scene| ==> HasPosition(scene[i].system) && scene[i].planets == PlanetNodes(scene[i].system)
    ensures forall n :: n in scene ==> n.system in data.entries.Values && HasPosition(n.system)
    ensures forall h :: h in data.entries && HasPosition(data.entries[h]) ==>
              exists n :: n in scene && n.system == data.entries[h]
  {
    var visible := VisibleSystems(data.Values());
    var scene := seq(|visible|, i requires 0 <= i < |visible| => SystemNode(visible[i], PlanetNodes(visible[i])));
    NodesCoverSystems(visible, scene);
    assert forall h :: h in data.entries ==> data.entries[h] in data.entries.Values;
    scene
  }

  /** Nodes built one per system, in order, are exactly those systems. */
  lemma NodesCoverSystems(systems: seq<StarSystem>, nodes: seq<SystemNode>)
    requires |nodes| == |systems|
    requires forall i :: 0 <= i < |nodes| ==> nodes[i].system == systems[i]
    ensures forall n :: n in nodes ==> n.system in systems
    ensures forall s :: s in systems ==> exists n :: n in nodes && n.system == s
  {
    forall n | n in nodes ensures n.system in systems {
      var i :| 0 <= i < |nodes| && nodes[i] == n;
      assert systems[i] in systems;
    }
    forall s | s in systems ensures exists n :: n in nodes && n.system == s {
      var i :| 0 <= i < |systems| && systems[i] == s;
      assert nodes[i] in nodes;
    }
  }

  /** The star is drawn 99 units along z from its catalog position, but the
      orbit centre only 97: each orbit is centred 2 units short of its star
      along z. */
  lemma OrbitCentreOffsetFromStar(s: StarSystem, i: nat, time: real, trig: Trig)
    requires HasPosition(s) && i < |s.exoplanets|
    ensures
      var node := PlanetNodes(s)[i];
      var star := HostStar.RenderHostStar(s.starData);
      && star.Some?
      && Exoplanet.PlanetPosition(node.planet, node.starPosition, time, trig)
         == star.value.position.Plus(Exoplanet.OrbitOffset(node.planet, time, trig)).Plus(Vec3(0.0, 0.0, -2.0))
  {
  }

  /** The star is drawn at 0.25 per solar radius, but the planet size is the
      radius ratio times the raw star radius: a planet with radius ratio `q`
      is drawn `4 q` times its star's drawn radius. */
  lemma PlanetToStarDrawnRatio(s: StarSystem, i: nat)
    requires HasPosition(s) && i < |s.exoplanets|
    requires FinitePositive(s.exoplanets[i].radiusRatio) && FinitePositive(s.starData.starRadius)
    ensures
      var node := PlanetNodes(s)[i];
      Exoplanet.PlanetSize(node.planet.radiusRatio, node.planet.earthRadii, node.starSize)
      == 4.0 * node.planet.radiusRatio.value * HostStar.StarSize(s.starData.starRadius)
  {
  }
}
